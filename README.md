# Linode API client — a Dafny model

This project models `src/mylinode_api/__init__.py`, a small Python client for
Linode's v4 REST API. That file holds:

- three public catalog lookups, `getRegions`, `getTypes` and `getImages`;
- the helper `keyByValue`;
- the class `linodeClient`, which is bound to one API token and has one method
  per remote operation (instances, backups, snapshots, configs and disks).

Each instance method except `getLinodes` and `createLinode` sends one request
through `requests` and then runs the same branch on the decoded reply. If the
reply has an `errors` key, the method prints the `reason` of each entry, joined
by newlines, and calls `sys.exit(1)`. Otherwise it returns the decoded reply,
or `True`, depending on how that method is written. `getLinodes` sends one GET
and returns the ids in the reply, with no `errors` branch. `createLinode`
sends up to four requests: the region, type and image catalog lookups, then the
POST that creates the instance, followed by the same reply branch. Four
methods (`createLinode`, `rebuildLinode`, `createConfig` and `createDisk`)
build their body from required fields and then copy in every keyword argument
whose value is truthy. `createLinode` first checks the
region, plan type and image against the three catalogs.

The model works on decoded JSON values (`Json.Json`) and states the Python
semantics the code relies on:

- truthiness;
- `==` (where `True == 1`, and dicts compare as unordered mappings);
- `in` on a dict, a list or a string;
- `x[key]`, with its `KeyError` and `TypeError`;
- iteration over a list, a dict or a string;
- `str(int)`;
- `'\n'.join`.

The transport is a parameter: each operation takes the decoded reply it would
receive and returns an `Exchange`. An `Exchange` is the list of requests sent,
in order, plus the outcome. The outcome is one of `Return(value)`,
`Exit(message)` (the `print` and `sys.exit(1)`) or `Raise(exception)`.

Modules, one per file:

- `Json`: the values and the Python operations on them.
- `Decimal`: `str(n)` and its inverse.
- `Lines`: `'\n'.join` and `split('\n')`.
- `Extract`: the loop `for e in items: out.append(e[key])`.
- `Http`: the request descriptor.
- `Api`: the module-level functions.
- `Body`: the keyword-argument overlay.
- `Response`: the shared reply branch.
- `Client`: `linodeClient`.

The 23 single-request instance methods are constructors of
`Client.Operation`. `LinodeClient.Describe` gives the request each one sends.
`LinodeClient.Perform` runs the body-assembly loop and the reply branch.

The code has these particularities, and the model keeps each of them:

- There is no empty-body test: each method always returns the reply or always
  returns `True`. `deleteLinode` returns the reply.
- Errors are not raised: the method prints the reasons and calls
  `sys.exit(1)`, which the model records as `Exit(message)`.
- Any `errors` key takes the error path, so `{"errors": []}` exits with an
  empty message (`Response.EmptyErrorsStillExit`).
- `shutDownLinode`, `restoreBackup` and `deleteConfig` send no `headers=`
  argument at all.
- `createDisk` passes the header dict as the second positional argument of
  `requests.post`, which is `data`, and also sends no `headers=`.

## Model

| member | source | states |
|---|---|---|
| Json.Truthy | src/mylinode_api/__init__.py:20 | Python truthiness, the test of `if v:` at lines 62, 144, 276 and 338 and of `if private and token` at line 20: `None`, `False`, `0`, `""`, `[]` and `{}` are false. |
| Json.FalsyValues | src/mylinode_api/__init__.py:62 | A value fails `if v:` exactly when it is `None`, `False`, `0`, `""`, `[]` or `{}`. |
| Json.Get | src/mylinode_api/__init__.py:66-68 | A dict lookup finds a value exactly when the key is present, and that entry is in the dict. |
| Json.GetEntry | src/mylinode_api/__init__.py:66-68 | In a dict without repeated keys, every entry is what its own key looks up. |
| Json.Set | src/mylinode_api/__init__.py:63 | `data[k] = v`: afterwards `k` holds `v` and every other key holds what it held before. The key set gains `k`. A new key is appended at the end. |
| Json.SetDistinct | src/mylinode_api/__init__.py:61-63 | Assigning into a dict never creates a repeated key. |
| Json.PyEq | src/mylinode_api/__init__.py:31 | Python `==` on decoded values: `True == 1` and `False == 0`, lists compare element by element, and dicts compare as unordered mappings. |
| Json.Member | src/mylinode_api/__init__.py:49-53 | Python `v in xs` for a list: some element is `==` to `v`. |
| Json.PyEqReflexive | src/mylinode_api/__init__.py:28-32 | Every well-formed decoded value is `==` to itself, which is what lets `keyByValue` find the value stored under a key (`Api.KeyByValueInverts`). |
| Json.PyEqString | src/mylinode_api/__init__.py:49-54 | A string argument is `==` only to the very same string, so `region in ids` asks for that exact id. |
| Json.Contains | src/mylinode_api/__init__.py:66 | `'errors' in x` tests a dict's keys and a list's elements. It raises `TypeError` exactly on `None`, booleans and integers. |
| Json.GetItem | src/mylinode_api/__init__.py:67-68 | `x['k']` succeeds exactly on a dict that has the key, with a value stored under it. Otherwise it raises `KeyError('k')` on a dict and `TypeError` on anything else. |
| Json.Iterate | src/mylinode_api/__init__.py:67 | A `for` loop visits a list's items, a dict's keys as strings or a string's one-character strings, in order, and raises `TypeError` exactly on `None`, a boolean or an integer. |
| Decimal.NatToString | src/mylinode_api/__init__.py:75 | `str(n)` for `n >= 0` is a non-empty run of digits with no leading zero. |
| Decimal.IntToString | src/mylinode_api/__init__.py:75 | `str(n)` is an optional minus sign followed by digits. It contains no `/`. |
| Decimal.IntRoundTrip | src/mylinode_api/__init__.py:75 | `int(str(n)) == n` for every integer. |
| Decimal.IntToStringInjective | src/mylinode_api/__init__.py:75 | Distinct ids give distinct path segments. |
| Lines.Join | src/mylinode_api/__init__.py:69 | Joining no lines gives `""`, and joining one line gives that line. |
| Lines.Split | src/mylinode_api/__init__.py:69 | Splitting on newlines gives at least one piece, and no piece holds a newline. |
| Lines.SplitJoin | src/mylinode_api/__init__.py:69 | The printed message determines the reasons: splitting `'\n'.join(reasons)` gives back a non-empty list of newline-free reasons, in order. |
| Extract.FieldOfEach | src/mylinode_api/__init__.py:67-68 | Collecting `e[key]` succeeds exactly when every element has the key. The results come one per element, in order. |
| Extract.FieldOfEachFails | src/mylinode_api/__init__.py:67-68 | A failed collection carries the exception of the first element that raises, and every earlier element was read. |
| Extract.CollectField | src/mylinode_api/__init__.py:65-68 | The appending loop yields exactly the collection above, including which exception stops it. |
| Http.BearerHeader | src/mylinode_api/__init__.py:21 | The header `{"Authorization": f"Bearer {token}"}` of the private images lookup (line 21) and of the client (line 37). |
| Api.ImagesRequest | src/mylinode_api/__init__.py:18-24 | `getImages` sends a GET to `/images`. It carries a bearer header exactly when `private` is set. With `private` and a falsy token it raises `UnboundLocalError` before sending anything. |
| Api.Ids | src/mylinode_api/__init__.py:7-8 | Reading `body['data']` fails with that lookup's exception. For a `data` list, the ids are the `id` of each entry. |
| Api.ExtractIds | src/mylinode_api/__init__.py:4-9 | The loop of `getRegions`, `getTypes`, `getImages` and `getLinodes` computes exactly those ids. |
| Api.IdsOfCatalog | src/mylinode_api/__init__.py:11-16 | On a catalog `{"data": [...]}` the lookup succeeds exactly when every entry is an object with an `id`. It returns those ids one per entry, in order. |
| Api.IndexOf | src/mylinode_api/__init__.py:31 | `list.index(v)` returns the first position `==` to `v`. It raises `ValueError` exactly when there is none. |
| Api.KeyByValue | src/mylinode_api/__init__.py:28-32 | `keyByValue` returns the first key, in insertion order, whose value is `==` to the argument. It raises `ValueError` exactly when no value matches. |
| Api.KeyByValueInverts | src/mylinode_api/__init__.py:28-32 | When the values are pairwise unequal, the value stored under a key leads back to that key. |
| Api.KeyByValueFindsValue | src/mylinode_api/__init__.py:28-32 | The returned key looks up a value `==` to the one searched for. |
| Body.Overlay | src/mylinode_api/__init__.py:55-63 | The dict the building loop leaves behind: the required fields, with `data[k] = v` applied for each truthy keyword argument in the caller's order. |
| Body.TruthyEntries | src/mylinode_api/__init__.py:61-63 | The keyword arguments kept by `if v:`: every kept entry is truthy and was passed by the caller, and every truthy entry the caller passed is kept. |
| Body.AssembleBody | src/mylinode_api/__init__.py:55-63 | The body-building loop computes exactly the overlay of the truthy keyword arguments onto the required fields. |
| Body.OverlayGet | src/mylinode_api/__init__.py:143-145 | In the body, a key holds the caller's value when that value is truthy. Otherwise it holds what the required fields gave it, so a falsy argument (`0`, `""`, `False`, empty) is dropped. |
| Body.OverlayDistinct | src/mylinode_api/__init__.py:275-277 | The assembled body never repeats a key. |
| Body.OverlayAppends | src/mylinode_api/__init__.py:336-339 | If no argument names a required field, the body is the required fields in order, then the truthy arguments in the caller's order. |
| Response.Strings | src/mylinode_api/__init__.py:69 | `str.join` accepts exactly a list of strings, and keeps them in order. |
| Response.Handled | src/mylinode_api/__init__.py:65-72 | A call returns exactly when `'errors' in body` is `False`, and then returns the reply or `True`. An exit prints the joined reasons. On a dict, the call returns exactly when there is no `errors` key. |
| Response.HandleResponse | src/mylinode_api/__init__.py:65-72 | The inline branch, with its loop, ends exactly as `Handled` says. |
| Response.ErrorMessage | src/mylinode_api/__init__.py:67-69 | The printed message: `'\n'.join` of the `reason` of every entry of `body['errors']`, or the exception that one of these steps raises. |
| Response.ErrorMessageOf | src/mylinode_api/__init__.py:67-69 | For `{"errors": [{"reason": r0}, ...]}` the message is the reasons joined by newlines, in order. |
| Response.ErrorReasonsInOrder | src/mylinode_api/__init__.py:66-70 | Such a reply ends the call with that message. When the reasons form a non-empty list of newline-free reasons, splitting the message gives them back. |
| Response.EmptyErrorsStillExit | src/mylinode_api/__init__.py:76-81 | `{"errors": []}` still takes the error path, with an empty message. |
| Client.InstanceUrl | src/mylinode_api/__init__.py:75 | The f-string `https://api.linode.com/v4/linode/instances/{str(linodeID)}` followed by the method's sub-path, as every single-instance method from line 75 to line 340 builds it. |
| Client.Action | src/mylinode_api/__init__.py:74-348 | The sub-path each method appends below the instance is empty or starts with `/`. |
| Client.RequiredFieldsAreParameters | src/mylinode_api/__init__.py:141-142 | Every required field is named after a parameter of its method, so a keyword argument Python lets through never overwrites one. |
| Client.Preflight | src/mylinode_api/__init__.py:49-54 | The checks run region, then type, then image. The first one that fails names the error, and all pass exactly when all three values are listed. |
| Client.CreateFields | src/mylinode_api/__init__.py:55-60 | The dict literal `createLinode` starts its body from: `image`, `type`, `region` and `root_pass`, in that order. |
| Client.InstanceUrlInjective | src/mylinode_api/__init__.py:75 | An instance URL determines both the instance id and the sub-path. |
| Client.SameUrlSameInstance | src/mylinode_api/__init__.py:74-348 | Two methods that send to the same URL address the same instance. |
| Client.SameActionSameSubResource | src/mylinode_api/__init__.py:225-312 | Within one kind of backup or config request, the path also determines the backup or config id. |
| Client.ReplyWithoutErrors | src/mylinode_api/__init__.py:108-117 | Without an `errors` key the eight action methods return `True` whatever the reply holds, and the others return the reply unchanged. This includes `deleteLinode`. |
| Client.HandledRaisesNoValueError | src/mylinode_api/__init__.py:65-72 | Every exception the reply branch raises, from `in`, indexing, the `for` over `body['errors']` or `str.join`, is a `TypeError` or a `KeyError`, never a `ValueError`. |
| Client.CatalogCheckOfCatalog | src/mylinode_api/__init__.py:4-16 | On a catalog `{"data": [...]}` whose entries are objects with an `id`, a check of `createLinode` passes exactly when some entry's `id` is `==` to the value. Otherwise it raises the check's own `ValueError`. |
| Client.CatalogCheck | src/mylinode_api/__init__.py:49-54 | One check of `createLinode`: read the ids of a catalog reply, raising what reading them raises, then raise the check's `ValueError` when the value is not `in` them. |
| Client.CheckCatalog | src/mylinode_api/__init__.py:49-54 | Fetching the ids and testing membership computes exactly that check. |
| Client.LinodeClient.constructor | src/mylinode_api/__init__.py:35-37 | The client keeps the token and the header `{"Authorization": "Bearer <token>"}`. |
| Client.LinodeClient.Describe | src/mylinode_api/__init__.py:74-348 | Each method's request goes to its instance URL. It uses GET exactly for the seven reads, PUT exactly for the two updates and DELETE exactly for the two deletes. There is no header on `shutDownLinode`, `restoreBackup`, `deleteConfig` and `createDisk`, and the bearer header everywhere else. The header dict is passed as `data` only by `createDisk`. `resetPassLinode` sends `{"root_pass": password}` and `createSnapshot` sends `{"label": label}`. The pass-through methods send `**kwargs` unchanged, and the filtering ones send the overlay body. Its parts are the per-method tables `Client.VerbOf` (the verb), `Client.LinodeClient.HeadersOf` (the headers), `Client.PayloadOf` (the JSON body), `Client.RequiredFields` and `Client.ParameterNames` (the fields and parameter names of the filtering methods) and `Client.ReplyOf` (reply or `True`, used by `Perform`). |
| Client.LinodeClient.Perform | src/mylinode_api/__init__.py:74-348 | An instance method sends exactly its one request and ends as the reply branch says, with the reply or `True` as that method is written. |
| Client.LinodeClient.GetLinodes | src/mylinode_api/__init__.py:40-46 | `getLinodes` sends one authenticated GET to `/linode/instances` and returns the ids of the reply, or the exception reading them raised. |
| Client.LinodeClient.CreateRequest | src/mylinode_api/__init__.py:64 | The POST to `/linode/instances` with the overlay body and the bearer header. |
| Client.LinodeClient.CreateLinodeExchange | src/mylinode_api/__init__.py:48-72 | What `createLinode` sends and how it ends: region, type and image checks in order, each failure raising after the lookups made so far, then the POST and the reply branch. |
| Client.LinodeClient.CreateLinode | src/mylinode_api/__init__.py:48-72 | `createLinode` performs the three catalog checks in order, then the POST and the reply branch, exactly as the three-stage exchange describes. |
| Client.LinodeClient.CatalogRequests | src/mylinode_api/__init__.py:49-53 | The catalog lookups of `createLinode` are all GETs. They are the unauthenticated regions (`Api.RegionsRequest`, line 6) and types (`Api.TypesRequest`, line 13) lookups, then the bearer-authenticated images lookup exactly when the token is non-empty. |
| Client.LinodeClient.CreateLinodeValidation | src/mylinode_api/__init__.py:49-64 | With the catalogs read, the first failed check raises its `ValueError` after only catalog lookups. When all pass, the client sends every lookup, then the POST, and handles the reply. |
| Client.LinodeClient.CreateChecksPass | src/mylinode_api/__init__.py:49-54 | `createLinode` gets past its checks exactly when the region and type checks pass, the token is non-empty so the images lookup is made, and the image check passes. |
| Client.LinodeClient.CreateLinodeSends | src/mylinode_api/__init__.py:48-64 | When every check passes, the client sends all the catalog lookups and then the POST. Otherwise it raises, having sent only a prefix of the lookups. |
| Client.LinodeClient.CreateLinodePostsOnlyWhenValid | src/mylinode_api/__init__.py:49-64 | A POST is sent exactly when every check passed, so a `ValueError` always means nothing was created. |
| Client.LinodeClient.CreateBodyAppends | src/mylinode_api/__init__.py:55-63 | The `createLinode` body is `image`, `type`, `region`, `root_pass`, then the truthy keyword arguments in the caller's order. |
| Client.LinodeClient.AssembledBodyAppends | src/mylinode_api/__init__.py:142-145 | In the bodies of `rebuildLinode`, `createConfig` and `createDisk`, the required fields come first, then the truthy keyword arguments in order. |
| Client.LinodeClient.AssembledBodyFields | src/mylinode_api/__init__.py:274-277 | In those bodies, a key outside the required fields is present exactly when the caller passed it with a truthy value, and then with that value. Every required field keeps the caller's value. |

## Left out

- The HTTP transport, JSON decoding and the network are left out. Each operation takes the decoded reply it would receive as a parameter, and the reply is not connected to the request.
- `print` and `sys.exit(1)` are modelled only as the `Exit(message)` outcome. The process ending and the output stream are not modelled.
- Floating-point JSON numbers are left out: a decoded value is null, a boolean, an integer, a string, a list or an object.
- `keyByValue`'s dictionary is modelled with string keys only, because that is all a decoded JSON object has.
- Api.IndexOf: the message of `list.index`'s `ValueError` is modelled without the leading `repr` of the missing value, because `repr` of JSON values is not modelled.
- Api.KeyByValue: raises the same shortened `ValueError` message, because it comes from the same `list.index` call.
- Ids used in paths are modelled as integers (`str(int)`). A caller passing a string or another type is not modelled.
- The other named parameters are fixed to their annotated types, which Python does not enforce: `region`, `type`, `image`, `root_pass`, `password` and `label` are strings, `devices` is a dict, and `size` is an integer. The unannotated parameters are fixed too: `TOKEN` of `linodeClient` is modelled as a string, and `private` and `token` of `getImages` as a bool and an optional string. So, for example, `linodeClient(None)` is not modelled.
- What `requests` does with `createDisk`'s header dict in the `data` position (form-encoding it into the body) is left out. The model records only that it is passed there and that no `headers=` argument is sent.
- Instance methods with a `**kwargs` whose keys repeat a named parameter are rejected by Python before the method runs. This is captured as the `Client.Bindable` premise of the body lemmas, not as a precondition of the methods.
- `getRegions`, `getTypes` and `getImages` are not separate methods. They are modelled as their request (`Api.RegionsRequest`, `Api.TypesRequest`, `Api.ImagesRequest`) plus the shared id loop `Api.ExtractIds`.
- The packaging files (`setup.py` and the like) are not part of this model.
