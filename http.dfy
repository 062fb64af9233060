/** The request descriptor: the arguments a client method hands to one
    `requests.get/post/put/delete` call. */
module Http {
  import opened Json

  datatype Verb = GET | POST | PUT | DELETE

  /** `requests.<verb>(url, data, json=json, headers=headers)`; `None` is an
      argument left out. `data` is passed as the second positional parameter
      of `requests.post`, which only `createDisk` does. */
  datatype Request = Request(verb: Verb, url: string, data: Option<Dict>, json: Option<Json>, headers: Option<Dict>)

  const ApiRoot := "https://api.linode.com/v4"

  /** `{"Authorization": f"Bearer {token}"}`. */
  function BearerHeader(token: string): Dict
  {
    [("Authorization", JStr("Bearer " + token))]
  }
}
