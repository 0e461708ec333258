# http4js `Request`, modelled in Dafny

This project models the `Request` message object of http4js, a TypeScript HTTP
toolkit. A request holds an HTTP method, a target URI, a header collection and a
body. It offers a fluent API: each mutator changes the request in place and
returns the same instance.

The only real logic is the per-name header state machine. A header name is in
one of three states: absent, one string, or an ordered list of strings.
- `setHeader` is additive: absent becomes one string, one string becomes a
  two-element list, and a list gets the new value at its end.
- `replaceHeader` collapses any state to one string.
- `removeHeader` makes the name absent.

Files:
- `headers.dfy`, module `HeaderState`: the header value type (`Single` or
  `Multi`, with absence as "not a key of the map"), one mutator call as a value
  (`HeaderOp`), its effect on a header map (`Step`) and on a sequence of calls
  (`Run`), and the lemmas about them.
- `request.dfy`, module `Core`: the class `Request` with its fields and its
  methods. Each header mutator is proved to leave `headers == Step(old(headers), op)`.
  Ghost fields record the initial headers and the calls made since
  (`Valid()`: `headers == Run(initial, log)`), so the trace lemmas apply to a
  live request.

Design choices:
- Fluent chaining is true in-place mutation (`modifies this`), and each mutator
  returns `this`.
- `setUri` is modelled as written: it ignores its argument, changes nothing and
  returns no request (`null` stands for `undefined`). The evidently intended
  version sits beside it as `SetUriCorrected` (see "## Findings").
- The constructor's optional `headers` argument is an `Option`: `None` stands
  for the omitted or `null` argument and gives an empty map. Any object passed
  in is truthy in JavaScript, so `Some(m)` stores `m`, even when `m` is empty.
- `setHeader` turns a value into a list on any second write, even one with the
  same value, and a stored empty string counts as present
  (`src/main/core/Request.ts:34-39`).
- The source field `method` is named `httpMethod` here, because `method` is a
  Dafny keyword.

## Model

| member | source | states |
|---|---|---|
| `HeaderState.Added` | src/main/core/Request.ts:34-39 | an additive write appends the value to the strings the name already holds, and the result is a list exactly when the name was present |
| `HeaderState.Step` | src/main/core/Request.ts:33-52 | one mutator call changes only its own name's entry. Set gives the appended value, replace gives `Single(v)`, remove leaves the name absent |
| `HeaderState.RunSnoc` | src/main/core/Request.ts:33-52 | running one more mutator call after a sequence of calls is one more step |
| `HeaderState.StepWellFormed` | src/main/core/Request.ts:33-52 | one mutator call keeps every list value at two or more strings |
| `HeaderState.RunWellFormed` | src/main/core/Request.ts:33-52 | any sequence of mutator calls keeps every list value at two or more strings |
| `HeaderState.FromEmptyMultiAtLeastTwo` | src/main/core/Request.ts:33-52 | starting from no headers, every list value holds at least two strings |
| `HeaderState.StepOther` | src/main/core/Request.ts:33-52 | a call leaves the lookup of every other name unchanged |
| `HeaderState.RunFrame` | src/main/core/Request.ts:33-52 | a sequence of calls that never names `n` leaves `n`'s entry unchanged |
| `HeaderState.RunOnlySets` | src/main/core/Request.ts:33-42 | if `n` receives only `setHeader` calls, its strings are its initial ones followed by every value set, in call order, and it is present iff it was present before or was set at least once |
| `HeaderState.RunWellFormedAt` | src/main/core/Request.ts:33-52 | any sequence of calls keeps one name's list at two or more strings, whatever the other names hold |
| `HeaderState.SetHistory` | src/main/core/Request.ts:33-42 | a name that starts absent (whatever the other names hold) and receives only `setHeader` calls is absent after no calls, `Single(v)` after one, and `Multi` of exactly the k values in call order after k >= 2 |
| `HeaderState.StepCommutes` | src/main/core/Request.ts:33-52 | calls on distinct names give the same lookup for every name in either order |
| `HeaderState.ResetAbsorbs` | src/main/core/Request.ts:44-52 | a replace or a remove discards whatever the previous call on the same name did |
| `HeaderState.RemoveIdempotent` | src/main/core/Request.ts:49-52 | removing twice is removing once, and removing an absent name changes nothing |
| `Core.Request.constructor` | src/main/core/Request.ts:12-23 | the method, URI and body are the given ones. The headers are the given map, or empty when none is given. The body defaults to an empty byte buffer |
| `Core.Request.SetUri` | src/main/core/Request.ts:25-27 | as written, `setUri` returns no request and changes nothing |
| `Core.Request.SetUriCorrected` | src/main/core/Request.ts:25-27 | the intended `setUri` sets the URI to the argument, changes nothing else, and returns this request |
| `Core.Request.GetHeader` | src/main/core/Request.ts:29-31 | exact-name lookup: a value iff the name is present, and then the stored one |
| `Core.Request.SetHeader` | src/main/core/Request.ts:33-42 | absent becomes `Single(v)`, `Single(s)` becomes `Multi([s, v])`, `Multi(xs)` becomes `Multi(xs + [v])`. No other name, and no other field, changes. Returns this request |
| `Core.Request.ReplaceHeader` | src/main/core/Request.ts:44-47 | the name holds `Single(v)` whatever it held before. No other name or field changes. Returns this request |
| `Core.Request.RemoveHeader` | src/main/core/Request.ts:49-52 | the name is absent afterwards, and removing an absent name changes nothing. No other name or field changes. Returns this request |
| `Core.Request.SetBody` | src/main/core/Request.ts:54-57 | the body becomes the given one and nothing else changes. Returns this request |
| `Core.Request.SetBodyString` | src/main/core/Request.ts:59-62 | the body's raw payload becomes the given string, undecoded, and nothing else changes. Returns this request |
| `Core.Request.BodyString` | src/main/core/Request.ts:64-66 | the result is the body's own string view of its current payload |
| `Core.BuiltWithoutHeaders` | src/main/core/Request.ts:21-52 | a request built with no headers argument holds only lists of two or more strings, whatever header calls were made on it |
| `Core.HeaderScenario` | src/main/core/Request.ts:33-52 | on a fresh request, set "a" gives `"a"`, set "b" gives `["a", "b"]`, set "d" gives `["a", "b", "d"]`, replace "c" gives `"c"`, and remove gives absent, also when done twice |
| `Core.SetUriScenario` | src/main/core/Request.ts:25-27 | after `setUri("/b")` on a request for "/a", the URI is still "/a" and nothing is returned |

## Left out

- Body internals. `Body`, its constructor and its `bodyString()` decoding are
  in `src/main/core/Body.ts`, which is not part of this model. The payload is
  either a byte buffer or a string. `bodystring()` takes the body's decoding as
  a parameter, so no round trip through it is claimed. This includes the claim
  that a default body reads as "".
- Core.Request.BodyString: it states only that the result is the body's own
  view of the current payload, because that view is defined outside this model.
- The `Method` enumeration and its `toString()` are in `src/main/core/HttpMessage.ts`,
  which is not part of this model. The method is stored as an arbitrary string.
- The unused `Headers` import (`src/main/core/Request.ts:2`): it has no behaviour here.
- Aliasing. A value-typed map and a value-typed body are used, which drops three effects:
  - the constructor stores the caller's headers object by reference;
  - `getHeader` hands out the stored array, which a caller can then `push` onto;
  - `setBodystring` writes into a `Body` object that another request may share.
- JavaScript's runtime inspection of stored values (`== null`, `typeof`). The
  tagged `HeaderValue` replaces it. A map passed to the constructor can
  therefore not hold `null`, `undefined` or non-string values.
- A constructor map may hold malformed lists (`Multi([])`, `Multi([x])`). The
  two-or-more lemmas are stated for maps with no such list, or for requests
  built without headers.
- The key order of the header object. A JavaScript object lists its string
  keys in insertion order (integer-like keys first), and a remove followed by
  a set moves a key to the end. `Object.keys`, `for...in` and
  `JSON.stringify` expose that order. The model's map is unordered, so only
  lookups by name are modelled.
- Names that a plain JavaScript object inherits from its prototype, such as
  "toString" or "__proto__". There `this.headers[name]` finds a non-null,
  non-string value, so `setHeader` would push onto it, which fails. The model
  treats every name as an ordinary key.

## Findings

| source | as written | input that shows it | evidently intended | confidence | as-written member | corrected member |
|---|---|---|---|---|---|---|
| src/main/core/Request.ts:25-27 | `setUri` ignores its argument and returns `undefined` | `new Request(GET, "/a").setUri("/b")` leaves the URI "/a" and returns nothing to chain on | set `uri` to the argument and return `this`, like the other mutators | not executed | `Core.SetUriScenario` | `Core.Request.SetUriCorrected` |
