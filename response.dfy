/** The branch every client method ends with: when the decoded reply has an
    `errors` key, print the joined reasons and `sys.exit(1)`; otherwise hand
    back the reply, or `True`, as the method is written to. */
module Response {
  import opened Json
  import opened Extract
  import Lines

  /** How a client method ends. `Exit(m)` is `print(m)` followed by
      `sys.exit(1)`; `Raise(e)` is a Python exception escaping the method. */
  datatype Outcome = Return(value: Json) | Exit(message: string) | Raise(error: Exception)

  /** Fixed per method: give back the decoded reply, or `True`. */
  datatype Reply = ReplyBody | ReplyTrue

  /** The texts of a list of strings; `None` if some element is not a string
      (`str.join` then raises `TypeError`). */
  function Strings(xs: seq<Json>): (r: Option<seq<string>>)
    ensures r.Some? <==> forall k :: 0 <= k < |xs| ==> xs[k].JStr?
    ensures r.Some? ==> |r.value| == |xs| && forall k :: 0 <= k < |xs| ==> xs[k] == JStr(r.value[k])
  {
    if forall k :: 0 <= k < |xs| ==> xs[k].JStr? then
      Some(seq(|xs|, k requires 0 <= k < |xs| => xs[k].s))
    else
      None
  }

  /** `'\n'.join(e['reason'] for e in body['errors'])`, or the exception that
      stops it. */
  function ErrorMessage(body: Json): Result<string>
  {
    var errs := GetItem(body, "errors");
    if errs.Failure? then Failure(errs.error)
    else
      var items := Iterate(errs.value);
      if items.Failure? then Failure(items.error)
      else
        var reasons := FieldOfEach(items.value, "reason");
        if reasons.Failure? then Failure(reasons.error)
        else
          var lines := Strings(reasons.value);
          if lines.None? then Failure(TypeError)
          else Success(Lines.Join(lines.value))
  }

  /** The outcome of a method that received the decoded reply `body`. */
  function Handled(body: Json, reply: Reply): (o: Outcome)
    ensures o.Return? <==> Contains(body, "errors") == Success(false)
    ensures o.Return? ==> o.value == if reply == ReplyBody then body else JBool(true)
    ensures o.Exit? ==> ErrorMessage(body) == Success(o.message)
    ensures body.JObj? ==> (o.Return? <==> "errors" !in Keys(body.fields))
  {
    var has := Contains(body, "errors");
    if has.Failure? then Raise(has.error)
    else if has.value then
      var m := ErrorMessage(body);
      if m.Failure? then Raise(m.error) else Exit(m.value)
    else if reply == ReplyBody then Return(body)
    else Return(JBool(true))
  }

  /** The inline branch, with its reason-collecting loop. */
  method HandleResponse(body: Json, reply: Reply) returns (o: Outcome)
    ensures o == Handled(body, reply)
  {
    var has := Contains(body, "errors");
    if has.Failure? {
      return Raise(has.error);
    }
    if !has.value {
      if reply == ReplyBody {
        return Return(body);
      }
      return Return(JBool(true));
    }
    var errs := GetItem(body, "errors");
    if errs.Failure? {
      return Raise(errs.error);
    }
    var items := Iterate(errs.value);
    if items.Failure? {
      return Raise(items.error);
    }
    var reasons := CollectField(items.value, "reason");
    if reasons.Failure? {
      return Raise(reasons.error);
    }
    var lines := Strings(reasons.value);
    if lines.None? {
      return Raise(TypeError);
    }
    o := Exit(Lines.Join(lines.value));
  }

  /** The message built from a list of `{"reason": r}` entries is the
      reasons joined by newlines, in order. */
  lemma ErrorMessageOf(body: Json, entries: seq<Json>, reasons: seq<string>)
    requires body.JObj? && Get(body.fields, "errors") == Some(JArr(entries))
    requires |reasons| == |entries|
    requires forall k :: 0 <= k < |entries| ==>
      entries[k].JObj? && Get(entries[k].fields, "reason") == Some(JStr(reasons[k]))
    ensures ErrorMessage(body) == Success(Lines.Join(reasons))
  {
    assert GetItem(body, "errors") == Success(JArr(entries));
    var fe := FieldOfEach(entries, "reason");
    assert fe.Success? by {
      forall k | 0 <= k < |entries| ensures GetItem(entries[k], "reason").Success? {
        assert "reason" in Keys(entries[k].fields);
      }
    }
    assert fe.value == seq(|reasons|, k requires 0 <= k < |reasons| => JStr(reasons[k])) by {
      forall k | 0 <= k < |reasons| ensures fe.value[k] == JStr(reasons[k]) {
        assert fe.value[k] == GetItem(entries[k], "reason").value;
      }
    }
    var lines := Strings(fe.value);
    assert lines.Some?;
    assert lines.value == reasons;
  }

  /** A reply of the shape `{"errors": [{"reason": r0}, ...]}`
      ends the call with the reasons joined by newlines, in order; each reason
      can be read back from the message. */
  lemma ErrorReasonsInOrder(body: Json, entries: seq<Json>, reasons: seq<string>, reply: Reply)
    requires body.JObj? && Get(body.fields, "errors") == Some(JArr(entries))
    requires |reasons| == |entries|
    requires forall k :: 0 <= k < |entries| ==>
      entries[k].JObj? && Get(entries[k].fields, "reason") == Some(JStr(reasons[k]))
    ensures Handled(body, reply) == Exit(Lines.Join(reasons))
    ensures |reasons| >= 1 && (forall k :: 0 <= k < |reasons| ==> Lines.NoNewline(reasons[k])) ==>
      Lines.Split(Handled(body, reply).message) == reasons
  {
    ErrorMessageOf(body, entries, reasons);
    assert Contains(body, "errors") == Success(true);
    if |reasons| >= 1 && forall k :: 0 <= k < |reasons| ==> Lines.NoNewline(reasons[k]) {
      Lines.SplitJoin(reasons);
    }
  }

  /** `{"errors": []}` still ends the call, with an empty message. */
  lemma EmptyErrorsStillExit(reply: Reply)
    ensures Handled(JObj([("errors", JArr([]))]), reply) == Exit("")
  {
    ErrorReasonsInOrder(JObj([("errors", JArr([]))]), [], [], reply);
  }
}
