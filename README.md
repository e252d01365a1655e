# Blood-donor registry: the donor store and the bank query, in Dafny

The registry keeps one record per donor. Each record is keyed by phone
number, and that phone number is also the donor's identity cookie. This
project models the deterministic core of the Express application in
`index.js`:

- the `escapeRegExp` helper;
- POST `/register`: create the donor, or retrieve it if the phone is known;
- POST `/donate`: add an amount to the donor's total;
- GET `/donate`: the donor's page, with its "last donated" line;
- GET `/bank`: the search query that finds donors by blood group and city,
  sorted by amount and cut into pages of 18.

The MongoDB collection is replaced by a class, `Store.DonorStore`. Its
`donors` field is a `map<string, Donor>` from phone to record. Its `clock`
field is a logical clock: it ticks once per write and gives the
`createdAt`/`updatedAt` stamps.

The handlers' decision logic is written as functions where the source only
computes:

- `RegExpEscape.EscapeRegExp`;
- `Donors.NewDonor`;
- `Donors.LastDonated`;
- `Bank.CompileQuery`;
- `Bank.PageOf`.

Registration and donation change the store in place, so they are methods
with `modifies` clauses. Both keep the store invariant `Valid()`:

- every record is keyed by its own phone;
- `createdAt <= updatedAt <= clock` for every record.

Files:

- `types.dfy`: `Option` and JavaScript truthiness of optional strings.
- `escape.dfy`: `escapeRegExp`, its inverse `Unescape`, and the `Literal`
  predicate, which says a pattern, read on its own, has no unescaped
  metacharacter and every backslash escapes one.
- `donor.dfy`: the record, upper-casing, building a new record, crediting an
  amount, and the "last donated" value.
- `store.dfy`: the store class and the register/donate handlers. It also
  has an end-to-end client (`Scenario`): register "jane" with 10, donate 5,
  see 15 and a donation time.
- `bank.dfy`: query compilation, the `amount`-descending sort, skip/limit
  paging, and the `/bank` handler.

Properties of the code that the model keeps, and does not smooth over:

- Registration does not check the blood group's form. It stores
  `toUpperCase(blood) + rh` whatever `blood` and `rh` are. A missing `rh`
  concatenates as the text `undefined`. So "a blood group always looks like
  `(A|B|AB|O)[+-]`" is not a property of `index.js`, and the model does not
  claim it. The schema in `./models/user` might enforce it; that file is
  not part of this model.
- The registration amount is `amount || 0`. A negative amount is stored
  unchanged, so the model does not claim "amount is non-negative". Only
  donations are guarded, so only the donation path is proved monotone.
- POST `/donate` looks the donor up by the cookie even when there is none,
  with an undefined filter value. Which record, if any, the driver answers
  for that lookup is not decided by `index.js`, so `Store.DonorStore.Donate`
  takes it as a parameter (`unkeyed`).
- The city parameter is used in the pattern verbatim, without escaping. The
  blood pattern's `rh` part is escaped.
- A donation is a read, an add and a save. It is not an atomic increment.
  The model treats each request as one step.

## Model

| member | source | states |
|---|---|---|
| `RegExpEscape.EscapeRegExp` | index.js:16-18 | The output is as long as the input plus the number of the 14 metacharacters `. * + ? ^ $ { } ( )`, the vertical bar, `[ ]` and the backslash in it. |
| `RegExpEscape.EscapeAppend` | index.js:16-18 | The replacement is global and per character: escaping a concatenation is the concatenation of the escapings. |
| `RegExpEscape.EscapeAt` | index.js:16-18 | At every input position, the character is copied unchanged if it is not a metacharacter, and gets exactly one backslash before it if it is. |
| `RegExpEscape.UnescapeEscape` | index.js:16-18 | Removing the inserted backslashes gives back the input (round trip). |
| `RegExpEscape.EscapeIsLiteral` | index.js:16-18 | The output contains no unescaped metacharacter, and every backslash in it escapes one: read on its own, it is a literal pattern for the input. |
| `RegExpEscape.LiteralIsEscaped` | index.js:16-18 | Conversely, every literal pattern is the escaping of the text it stands for. Together with `EscapeIsLiteral`, this makes the literal patterns exactly the outputs. |
| `RegExpEscape.EscapeInjective` | index.js:16-18 | Two different inputs never escape to the same pattern. |
| `Donors.UpperChar` | index.js:61-63 | `toUpperCase` on one character: a lower-case Latin letter a to z moves to its capital, which is 32 code points lower. Any other character is returned unchanged. No result is a letter a to z. |
| `Donors.Upper` | index.js:61-63 | Upper-casing keeps the length and maps every character through `UpperChar`. |
| `Donors.UpperIdempotent` | index.js:61-63 | Upper-casing a stored name or city again changes nothing. |
| `Donors.InitialAmount` | index.js:65 | The stored amount is the submitted amount, or 0 when it is missing or 0 (JavaScript's logical or). |
| `Donors.NewDonor` | index.js:59-67 | A record is built exactly when name, blood and city are all present. Otherwise `toUpperCase` throws and nothing is inserted. The record has the phone as given, the name and city upper-cased, the blood group `upper(blood) + rh` with `rh` not upper-cased, the amount as `InitialAmount` gives it, the address as given, and equal creation and update stamps. |
| `Donors.CreditChangesOnlyAmount` | index.js:98-102 | `amount +=` followed by a save adds exactly the submitted amount and bumps `updatedAt`. Every other field of the record is unchanged. |
| `Donors.LastDonated` | index.js:124-127 | The value is "Never." exactly when `createdAt == updatedAt`, and `updatedAt` otherwise. |
| `Donors.NewDonorNeverDonated` | index.js:124-127 | A freshly registered donor's page shows "Never.". |
| `Donors.CreditShowsDonation` | index.js:124-127 | After a donation stamped later than creation, the page shows that donation's time. |
| `Donors.ReplayTotals` | index.js:86-103 | After any sequence of donation requests, the amount is the old amount plus the sum of the accepted (present, positive) amounts, so it never decreases. Identity and profile fields are unchanged. The page shows a donation once one was accepted. With none accepted, the record is unchanged. |
| `Store.DonorStore.Register` | index.js:54-84 | A known phone leaves the whole store and clock unchanged and issues that phone as the token. An unknown phone with a missing name, blood or city fails and changes nothing. Otherwise, exactly one record keyed by the phone is inserted (the `NewDonor` record, stamped with the next tick), and every other record is unchanged. The token is always the phone. The store invariant is kept. |
| `Store.DonorStore.Donate` | index.js:86-108 | A missing or non-positive amount gives redirect-back. Otherwise, a lookup that finds no donor gives logout; the lookup is by the cookie, or, without a cookie, whatever record the driver answers for an undefined phone (a parameter). In both cases the store is unchanged. Otherwise only the donor found changes: its amount grows by the submitted amount and `updatedAt` takes the next tick. The key set is unchanged, no amount decreases, and the result is the one-step `Replay`. |
| `Store.DonorStore.DonatePage` | index.js:110-139 | A falsy cookie redirects to registration. A cookie naming no donor redirects to logout. Otherwise the page shows that donor's name and amount, with "Never." exactly when `createdAt == updatedAt`, and the `updatedAt` time otherwise. |
| `Store.RegisterTwice` | index.js:56-79 | When the first call issues a token, registering the same phone a second time hands out the same token, and the second call changes nothing: the stored record is the first call's (or the one already there), whatever the second form says. |
| `Bank.NormalisePage` | index.js:154-155 | The page is always at least 1. It equals the input when the input is present and at least 1, and is 1 otherwise. |
| `Bank.CompileQuery` | index.js:147-170 | The page is normalised. Skip is `(page-1)*18`, a non-negative multiple of 18. The limit is 18 and the sort is `amount` descending. The city pattern is the `city` parameter verbatim, or `''` when it is missing or empty. |
| `Bank.BloodPatternShape` | index.js:147-150 | The blood pattern starts with the `blood` parameter verbatim, or the any-type group (an alternation of A, B, O and AB) when it is missing. If `rh` is given, the rest is a literal pattern that stands for exactly `rh`. Otherwise the rest is `[\+-]`. |
| `Bank.RhDistinguishes` | index.js:149 | With the same `blood`, two different non-empty Rh parameters always give different blood patterns. |
| `Bank.Insert` | index.js:168 | Inserting into a non-increasing sequence keeps it non-increasing, adds exactly that donor, and adds one to the length. |
| `Bank.SortByAmount` | index.js:168 | `sort: { amount: -1 }` gives a permutation of the matched donors, non-increasing in `amount`. |
| `Bank.PageOf` | index.js:164-171 | A page has at most 18 donors. Its length is exactly `min(18, n - skip)`, or 0 past the end. It is non-increasing in `amount`, and it is drawn from the matched donors. |
| `Bank.Bank` | index.js:141-177 | No cookie, or an empty one, redirects to registration and runs no query. Otherwise the result is the requested page: the window of the amount-sorted matches that starts after `page - 1` full pages of 18 (page normalised to at least 1). It has at most 18 matched donors in non-increasing `amount`, and the cookie is the `logged` flag. |
| `Bank.PagesDescend` | index.js:168-170 | Every donor on an earlier page has at least the amount of every donor on a later page. |
| `Bank.Window` | index.js:169-170 | Skip then limit on a sorted result: the length is `min(limit, n - skip)`, or 0 past the end, and the i-th donor is the sorted result's donor at `skip + i`. |
| `Bank.WindowIncluded` | index.js:169-170 | A window is drawn from the sequence, and a window of a non-increasing sequence is non-increasing. |
| `Bank.OnPageWindow` | index.js:154-170 | Page `k` of a search is the window of the sorted result that starts after `k - 1` full pages of 18. |
| `Bank.WindowsDescend` | index.js:168-170 | In a non-increasing result, every donor in an earlier page's window has at least the amount of every donor in a later one. |
| `Bank.PrefixGrows` | index.js:169-170 | The first `j` pages' worth of donors, followed by window `j + 1`, is exactly the first `j + 1` pages' worth. |
| `Bank.NextPageExtends` | index.js:168-170 | Appending page `j+1` to the first `j` pages extends the sorted prefix by 18 donors, or up to the end, given one fixed order of equal amounts. |
| `Bank.FirstPagesArePrefix` | index.js:168-170 | Given one fixed order of equal amounts across requests, paging neither skips nor repeats a donor: pages 1 to `k` together are exactly the first `18k` donors of the sorted result. |

## Left out

- Express plumbing is not modelled: middleware, static files, `sendFile` routes, view rendering, cookie parsing, the server start and GET `/logout`. Only the outcome each handler chooses is kept: redirect, render or cookie token.
- The MongoDB connection, and store failures (connection or validation errors reported with `res.send`), are not modelled. The schema in `./models/user`, with its validators, defaults and unique index, is not part of this model. In the model, an insert or save always succeeds.
- Which donors a pattern matches (MongoDB `$regex` with the `i` option) is not modelled. `Bank.Bank` takes the matched donors, in stored order, as a parameter. The model produces only the pattern strings and the sort/skip/limit.
- Concurrency is not modelled: the read-then-save race in donation, and two registrations of the same new phone at once. Each request is one atomic step.
- Amounts are integers. `parseFloat`, fractional amounts, non-numeric strings (which pass the `<= 0` guard in JavaScript) and NaN are not modelled. The submitted amount is an optional integer.
- Query parameters repeated into arrays, and non-integer page strings, are not modelled. The page is an optional integer.
- A registration form without a phone is not modelled. The phone is always a string.
- Wall-clock time and the cookie's 2-day max-age are not modelled. Timestamps come from a logical clock that ticks once per write, so two writes never share a stamp.
- Error messages, logging (`debug`, `morgan`, `console`) and the missing `return` after `res.send(err)` at index.js:92 and index.js:173 are not modelled.
- `Donors.UpperChar`: maps only a to z. Other lower-case letters, such as é, ÿ, Greek or Cyrillic ones, which `toUpperCase` capitalises, are returned unchanged.
- `Donors.Upper`: upper-cases only the Latin letters a to z. JavaScript's `toUpperCase` also maps other scripts, and can lengthen a string (for example `ß` becomes `SS`); the model does not capture that.
- `Bank.SortByAmount`: proves only the non-increasing order and the permutation. Donors with equal amounts keep the insertion sort's order, and no tie-break is claimed, because MongoDB defines none.
- `Store.DonorStore.Donate`: without a cookie, which record the lookup by an undefined phone returns is left to the driver (a filter value that is dropped can match any record; one sent as null matches none of the model's records, which all have a phone). The model takes that record as the parameter `unkeyed` and does not decide between the two.
- `Bank.FirstPagesArePrefix`: assumes every page request sorts equal amounts in one and the same order, as the model's deterministic sort does. `sort: { amount: -1 }` has no tie-break, and MongoDB does not promise a stable order of equal amounts across separate `skip` queries, so a donor tied at a page boundary may show on two pages or on none. `Bank.PagesDescend` does not depend on this.
- `Bank.NextPageExtends`: rests on the same fixed order of equal amounts across page requests.
- `RegExpEscape.EscapeIsLiteral`: states only that the escaped `rh`, read on its own, is a literal for `rh`. In the full blood pattern the verbatim `blood` prefix can change how it is read (with `blood` ending in a backslash, the escape of a following `+` is used up and the `+` acts as a quantifier), and the `i` option lets an escaped letter match either case. Neither is modelled, because pattern matching is not.
