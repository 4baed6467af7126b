# Personal-finance service: verified model of its core

This project models, in Dafny, the parts of a student personal-finance service
(FastAPI, SQLAlchemy, Celery) whose behaviour can be stated precisely, and proves
what they promise:

- **Bearer tokens** (`auth.dfy`, module `Auth`): `create_access_token` (expiry of
  now plus the given lifetime, 30 minutes by default, the claims copied and `exp`
  added) and the hand-written verification in `get_current_user` (split into three
  parts, decode the payload, recompute HMAC-SHA256 over `header.payload`, compare,
  and only then parse the payload and look up `sub`). HMAC-SHA256 (RFC 2104),
  base64url (section 5 of RFC 4648), UTF-8 and JSON are uninterpreted functions held
  in a `Primitives` value; the JWS form is the HS256 one of section 3.2 of RFC 7518.
- **Ledger rules** (`ledger.dfy`, module `Ledger`): the database is a `Store`
  object whose tables are maps from ids to records; the no-overdraft balance update
  of `create_transaction` and the owner scoping of account, budget and target
  lookups, creations and deletions.
- **In-memory nested store** (`nested_store.dfy`, module `NestedStore`): the first
  practice API's list of users → accounts → transactions, scanned by nested loops
  where the first match wins, and the in-place append of a transaction.
- **Range-partition summation** (`range_sum.dfy`, module `RangeSum`): the three
  scripts that sum 1..10^9 with 4 processes, 32 threads or 32 coroutines, run
  sequentially: chunk arithmetic, slot-by-slot filling of the result buffer, and
  the closed form of the total.
- **Profile scraping** (`html_extract.dfy`, module `HtmlExtract`, over
  `py_strings.dfy`, module `PyStrings`): the title/wealth extraction, the
  username/email derivation of the lab script and the same extraction in the
  parser service, with Python's `str.split`, `str.replace`, `str.lower` and `int()`
  written out.

`results.dfy` holds the `Option` and `Result` types.

An issued token carries `exp`, set to now plus `LIFETIME_IN_MINUTES` (auth.py:22
and 32), but `get_current_user` never reads `exp` when verifying a token, so the
model has no expiry check, and `Auth.ExpNeverRead` proves that verification does
not depend on it. The code also decodes the payload
segment (base64url, then UTF-8) before it compares signatures, so a payload that does
not decode fails before the signature is looked at; only the JSON parse and the user
lookup come after the comparison. The model follows the code in both points.

## Model

| member | source | states |
|---|---|---|
| Auth.AsciiEncode | students/k3340/Kakhikalo_Kirill/lr_3/lab/app/auth.py:56 | `.encode("ascii")` succeeds exactly on ASCII text and keeps every character code |
| Auth.Expiry | students/k3340/Kakhikalo_Kirill/lr_3/lab/app/auth.py:32 | the expiry is now + delta; with no delta, or a zero delta (a falsy timedelta), it is now + 30 minutes |
| Auth.ClaimsToEncode | students/k3340/Kakhikalo_Kirill/lr_3/lab/app/auth.py:31-33 | the encoded claims are the caller's keys plus `exp`; `exp` holds the expiry (an existing one overwritten); every other claim is unchanged |
| Auth.NumericDate | students/k3340/Kakhikalo_Kirill/lr_3/lab/app/auth.py:34 | a datetime claim becomes the whole number of seconds at or below it |
| Auth.WithNumericDates | students/k3340/Kakhikalo_Kirill/lr_3/lab/app/auth.py:34 | only datetime-valued `exp`/`iat`/`nbf` claims are converted to NumericDate; the key set and all other claims are kept |
| Auth.SigningInput | students/k3340/Kakhikalo_Kirill/lr_3/lab/app/auth.py:56 | the signing input is exactly the raw header segment, one '.', and the raw payload segment |
| Auth.SigningInputInjective | students/k3340/Kakhikalo_Kirill/lr_3/lab/app/auth.py:56 | with a '.'-free header, the signing input determines header and payload |
| Auth.CreateAccessToken | students/k3340/Kakhikalo_Kirill/lr_3/lab/app/auth.py:27-34 | with primitives obeying their round-trip laws, the token has three '.'-separated parts: the first decodes to the HS256 header, the second to the serialised claims (the caller's claims with `exp` set to the expiry, datetimes as NumericDate), the third to the HMAC-SHA256 under the secret of the first two parts as they appear in the token |
| Auth.Pad | students/k3340/Kakhikalo_Kirill/lr_3/lab/app/auth.py:43-46 | exactly `(4 - len % 4) % 4` '=' characters are appended, the original is a prefix, and the padded length is a multiple of 4 |
| Auth.B64UrlDecode | students/k3340/Kakhikalo_Kirill/lr_3/lab/app/auth.py:43-47 | re-padding and decoding gives back exactly the bytes the unpadded encoder produced the text from |
| Auth.StatusCode | students/k3340/Kakhikalo_Kirill/lr_3/lab/app/auth.py:66-81 | the answer is 401 exactly for the signature mismatch and the missing user; every other failure is an uncaught exception |
| Auth.CheckSignature | students/k3340/Kakhikalo_Kirill/lr_3/lab/app/auth.py:54-71 | unpacking fails iff the token is not three parts; a decoding error iff three parts but the payload, its UTF-8 text, the ASCII signing input or the signature cannot be decoded; "Invalid token signature" iff all decode and the signature differs from the HMAC of the signing input; success iff it matches, and then the result is the decoded payload text |
| Auth.LookupSubject | students/k3340/Kakhikalo_Kirill/lr_3/lab/app/auth.py:73-83 | a payload that is not a JSON object is malformed, and only then; the result is a user iff the object's `sub` is text naming a user in the table, and then it is that user; every other payload is "User not found" |
| Auth.GetCurrentUser | students/k3340/Kakhikalo_Kirill/lr_3/lab/app/auth.py:50-83 | each outcome has its exact condition: unpacking fails iff the token is not three '.'-separated parts; a decoding error iff it is three parts but some step before the comparison fails; "Invalid token signature" iff every such step succeeds and the signatures differ; a malformed payload iff the signature matches and the payload is not a JSON object; "User not found" iff the signature matches, the payload is an object and its `sub` does not name a user in the table; otherwise the result is exactly the user `sub` names |
| Auth.MismatchIgnoresPayloadAndUsers | students/k3340/Kakhikalo_Kirill/lr_3/lab/app/auth.py:66-75 | on a signature mismatch the outcome is the same whatever the JSON parser returns and whoever is in the user table: the payload is not parsed and no user is looked up |
| Auth.ExpNeverRead | students/k3340/Kakhikalo_Kirill/lr_3/lab/app/auth.py:50-83 | replacing or removing `exp` in the parsed payload never changes the outcome of verification |
| Auth.CompactTokenVerifies | students/k3340/Kakhikalo_Kirill/lr_3/lab/app/auth.py:54-71 | a three-part token whose signature decodes to the HMAC of its signing input passes the signature check and hands on the decoded payload |
| Auth.IssueThenVerify | students/k3340/Kakhikalo_Kirill/lr_3/lab/app/auth.py:27-83 | with primitives obeying their round-trip laws, a token issued from claims whose values outside `exp`/`iat`/`nbf` are plain JSON, with a `sub` naming a user present in the table, verifies to that user, at any time and for any lifetime |
| Ledger.OwnedRecords | students/k3340/Kakhikalo_Kirill/lr_3/lab/app/main.py:163-170 | the join on Account filtered by owner keeps exactly the records whose account exists and belongs to the user, unchanged |
| Ledger.ApplyAmount | students/k3340/Kakhikalo_Kirill/lr_3/lab/app/main.py:151-155 | a transaction is refused iff balance + amount < 0; otherwise the new balance is balance + amount and not negative |
| Ledger.ReplayKeepsBalance | students/k3340/Kakhikalo_Kirill/lr_3/lab/app/main.py:151-155 | over any sequence of transaction requests the final balance is the opening balance plus the accepted amounts, and a non-negative balance stays non-negative |
| Ledger.DeleteIsInvisibleToOthers | students/k3340/Kakhikalo_Kirill/lr_3/lab/app/main.py:194-198 | deleting a record the owner holds leaves every other user's view of budgets or targets unchanged |
| Ledger.Store.GetAllAccounts | students/k3340/Kakhikalo_Kirill/lr_3/lab/app/main.py:73-75 | exactly the caller's accounts |
| Ledger.Store.GetAccountById | students/k3340/Kakhikalo_Kirill/lr_3/lab/app/main.py:78-87 | the account iff its id matches and its owner is the caller; otherwise 404 "Account not found" |
| Ledger.Store.GetTransactionsByAccount | students/k3340/Kakhikalo_Kirill/lr_3/lab/app/main.py:118-129 | for an account of the caller's, exactly the transactions that refer to it; otherwise 404 "Account not found" |
| Ledger.Store.CreateAccount | students/k3340/Kakhikalo_Kirill/lr_3/lab/app/main.py:90-101 | the new account's owner is always the caller; it is the only change to the store; foreign keys still hold |
| Ledger.Store.CreateTransaction | students/k3340/Kakhikalo_Kirill/lr_3/lab/app/main.py:132-158 | 404 for an account that is not the caller's; 400 "Not enough money" iff balance + amount < 0, with balances and transactions unchanged; success iff the account is the caller's and applying the amount keeps the balance non-negative; on success exactly one transaction with the path's account id and the request's amount is added, the balance grows by exactly the amount and is not negative, and nothing else changes |
| Ledger.Store.ReadBudgets | students/k3340/Kakhikalo_Kirill/lr_3/lab/app/main.py:161-170 | exactly the budgets whose account belongs to the caller |
| Ledger.Store.CreateBudget | students/k3340/Kakhikalo_Kirill/lr_3/lab/app/main.py:173-189 | a missing or foreign account gives 404 "Account not found" and adds nothing; otherwise exactly the requested budget is added |
| Ledger.Store.DeleteBudget | students/k3340/Kakhikalo_Kirill/lr_3/lab/app/main.py:192-200 | exactly the named budget is removed iff it exists and its account is the caller's; otherwise 404 "Budget not found" and the store is unchanged |
| Ledger.Store.ReadTargets | students/k3340/Kakhikalo_Kirill/lr_3/lab/app/main.py:203-211 | exactly the targets whose account belongs to the caller |
| Ledger.Store.CreateTarget | students/k3340/Kakhikalo_Kirill/lr_3/lab/app/main.py:214-232 | a missing or foreign account gives 404 "Account not found" and adds nothing; otherwise exactly the requested target, created at the request time, is added |
| Ledger.Store.DeleteTarget | students/k3340/Kakhikalo_Kirill/lr_3/lab/app/main.py:235-244 | exactly the named target is removed iff it exists and its account is the caller's; otherwise 404 "Target not found" and the store is unchanged |
| NestedStore.FirstMatchUnique | students/k3340/Kakhikalo_Kirill/lr_1/practice/1/main.py:147-152 | the first match of the scan order is unique |
| NestedStore.Db.Seed | students/k3340/Kakhikalo_Kirill/lr_1/practice/1/main.py:19-131 | the seed holds one user whose two accounts, "Bank Account" then "Crypto Wallet", share one id |
| NestedStore.Db.GetAllAccounts | students/k3340/Kakhikalo_Kirill/lr_1/practice/1/main.py:137-142 | 200 with the accounts of the first user with that id iff there is one; otherwise 404 and an empty list |
| NestedStore.Db.GetAccountById | students/k3340/Kakhikalo_Kirill/lr_1/practice/1/main.py:145-152 | an account iff some user with that id holds an account with that id, and then the first one in scan order with 200; otherwise 404 and None |
| NestedStore.Db.GetTransactionsByAccount | students/k3340/Kakhikalo_Kirill/lr_1/practice/1/main.py:155-162 | the first matching account's transaction list as it is with 200 iff there is a match; otherwise 404 and an empty list |
| NestedStore.Db.AddTransaction | students/k3340/Kakhikalo_Kirill/lr_1/practice/1/main.py:165-181 | on a match, exactly one record (path account id, input amount, category, description, category name "Unknown") is appended to the end of the first matching account's list with 201, and every other account's list is untouched; with no match nothing changes and the result is None |
| NestedStore.SeedLookups | students/k3340/Kakhikalo_Kirill/lr_1/practice/1/main.py:19-152 | on the seed data, looking up the shared id finds "Bank Account" and the second generated account id gives 404 |
| PyStrings.Find | students/k3340/Kakhikalo_Kirill/lr_2/lab/task_2/multithreading_parsing.py:62 | the result is missing exactly when the separator does not occur; otherwise the separator occurs at the result and at no earlier index |
| PyStrings.Split | students/k3340/Kakhikalo_Kirill/lr_2/lab/task_2/multithreading_parsing.py:62 | `str.split(sep)` yields at least one piece, at least two iff the separator occurs, and no piece contains the separator |
| PyStrings.SplitJoin | students/k3340/Kakhikalo_Kirill/lr_2/lab/task_2/multithreading_parsing.py:62 | joining the pieces with the separator gives back the string |
| PyStrings.Before | students/k3340/Kakhikalo_Kirill/lr_2/lab/task_2/multithreading_parsing.py:62 | a prefix inside which no occurrence of the separator starts, followed by an occurrence unless it is the whole string |
| PyStrings.SplitHead | students/k3340/Kakhikalo_Kirill/lr_2/lab/task_2/multithreading_parsing.py:62 | the first piece is the text before the leftmost occurrence (`Before`), which is the whole string exactly when the separator does not occur |
| PyStrings.SplitThree | students/k3340/Kakhikalo_Kirill/lr_3/lab/app/auth.py:54 | three '.'-free segments joined by '.' split back into exactly those three |
| PyStrings.RemoveChar | students/k3340/Kakhikalo_Kirill/lr_2/lab/task_2/multithreading_parsing.py:64 | `replace('.', '')` leaves no '.', keeps the count of every other character, and is empty iff the input is all dots |
| PyStrings.RemoveCharConcat | students/k3340/Kakhikalo_Kirill/lr_2/lab/task_2/multithreading_parsing.py:64 | removal distributes over concatenation, so the order of the kept characters is preserved |
| PyStrings.RemoveCharAbsent | students/k3340/Kakhikalo_Kirill/lr_2/lab/task_2/multithreading_parsing.py:64 | a string without the character is left as it is |
| PyStrings.ParseInt | students/k3340/Kakhikalo_Kirill/lr_2/lab/task_2/multithreading_parsing.py:65 | `int()` succeeds iff the text is a non-empty run of digits, and its value is then the positional value of the digits (each digit times ten to the number of digits after it) |
| PyStrings.DigitsValuePlaces | students/k3340/Kakhikalo_Kirill/lr_2/lab/task_2/multithreading_parsing.py:65 | accumulating digits left to right by tens gives the positional value |
| PyStrings.ParseIntLeadingZeros | students/k3340/Kakhikalo_Kirill/lr_2/lab/task_2/multithreading_parsing.py:64-65 | leading zeros do not change the value: `int("0" * n + s) == int(s)`, so a wealth such as "0.5" normalised to "05" reads as 5 |
| PyStrings.ShowNat | students/k3340/Kakhikalo_Kirill/lr_2/lab/task_2/multithreading_parsing.py:65 | the decimal text of a natural number is a non-empty run of digits |
| PyStrings.ParseShowNat | students/k3340/Kakhikalo_Kirill/lr_2/lab/task_2/multithreading_parsing.py:65 | `int(str(n)) == n` |
| HtmlExtract.ExtractBetween | students/k3340/Kakhikalo_Kirill/lr_2/lab/task_2/multithreading_parsing.py:62-63 | the field is missing (IndexError) iff the opening marker is absent; otherwise it is the text after the leftmost opening marker, cut at the next opening marker and then at the first closing marker inside that piece, and it holds neither marker |
| HtmlExtract.NormalizeWealth | students/k3340/Kakhikalo_Kirill/lr_2/lab/task_2/multithreading_parsing.py:64 | a non-empty wealth loses every '.' and keeps all other characters in order; an empty wealth becomes "0"; a non-empty all-dots wealth becomes "" because the emptiness test comes first |
| HtmlExtract.Username | students/k3340/Kakhikalo_Kirill/lr_2/lab/task_2/multithreading_parsing.py:67 | same length, every space becomes '_', every other character is lower-cased, so no spaces and no capitals remain |
| HtmlExtract.UsernameIdempotent | students/k3340/Kakhikalo_Kirill/lr_2/lab/task_2/multithreading_parsing.py:67 | deriving a username from a username changes nothing |
| HtmlExtract.ParseAndSaveDataSingle | students/k3340/Kakhikalo_Kirill/lr_2/lab/task_2/multithreading_parsing.py:60-75 | an error status stops before extraction; a missing title or wealth marker is an IndexError; the page is accepted iff the status passes, both markers occur and `int()` reads the normalised wealth; on success the account name is the extracted title, the balance is `int()` of the extracted wealth with its dots removed, the username has no spaces, the email is username + "@example.com", the password "12345678", the currency "USD", and the same non-negative wealth is the opening balance and the transaction amount, described as the initial wealth transfer |
| HtmlExtract.WealthValueError | students/k3340/Kakhikalo_Kirill/lr_2/lab/task_2/multithreading_parsing.py:64-65 | a page that reaches `int()` fails there iff the normalised wealth is empty or holds a non-digit |
| HtmlExtract.ParseUrl | students/k3340/Kakhikalo_Kirill/lr_3/lab/parser/main.py:15-22 | an error status stops before extraction; success iff both markers occur; the dict has exactly the keys title and wealth, the title is the extracted field and the wealth is the extracted wealth normalised as the lab script does it |
| HtmlExtract.ScrapersAgreeOnTitle | students/k3340/Kakhikalo_Kirill/lr_3/lab/parser/main.py:19-21 | on a page the lab script accepts, the parser service returns the same title and a wealth string that `int()` turns into the same balance |
| RangeSum.RangeTotal | students/k3340/Kakhikalo_Kirill/lr_2/lab/task1/multiprocessing_sum.py:24 | `sum(range(lo, hi))` is 0 for an empty range |
| RangeSum.RangeTotalClosedForm | students/k3340/Kakhikalo_Kirill/lr_2/lab/task1/multiprocessing_sum.py:24 | for lo ≤ hi, twice `sum(range(lo, hi))` is (hi − lo)(lo + hi − 1) |
| RangeSum.Step | students/k3340/Kakhikalo_Kirill/lr_2/lab/task1/multiprocessing_sum.py:9 | the floor division satisfies workers·step ≤ to − from < workers·(step + 1) |
| RangeSum.ChunkTotals | students/k3340/Kakhikalo_Kirill/lr_2/lab/task1/multithreading_sum.py:10 | the filled buffer has one slot per worker |
| RangeSum.RangeTotalSplit | students/k3340/Kakhikalo_Kirill/lr_2/lab/task1/multiprocessing_sum.py:12-13 | the sums of adjacent half-open ranges add up to the sum of their union |
| RangeSum.ChunksTile | students/k3340/Kakhikalo_Kirill/lr_2/lab/task1/multithreading_sum.py:11-13 | the chunks [from + i·step, from + (i+1)·step) for i < n tile [from, from + n·step) without overlap |
| RangeSum.RemainderNonEmpty | students/k3340/Kakhikalo_Kirill/lr_2/lab/task1/multiprocessing_sum.py:21 | from + workers·step never passes to, so the remainder range is not empty |
| RangeSum.PartitionTotal | students/k3340/Kakhikalo_Kirill/lr_2/lab/task1/multiprocessing_sum.py:21 | the chunk sums plus the remainder sum equal the sum of from..to inclusive |
| RangeSum.GaussSum | students/k3340/Kakhikalo_Kirill/lr_2/lab/task1/multiprocessing_sum.py:21 | the sum of 1..n is n(n+1)/2 |
| RangeSum.RangeTotalNonNegative | students/k3340/Kakhikalo_Kirill/lr_2/lab/task1/multiprocessing_sum.py:24 | a range of non-negative integers has a non-negative sum |
| RangeSum.RangeTotalBounded | students/k3340/Kakhikalo_Kirill/lr_2/lab/task1/multiprocessing_sum.py:24 | the sum of a sub-range of [1, top) is at most the sum of [1, top) |
| RangeSum.ProcessChunksFit | students/k3340/Kakhikalo_Kirill/lr_2/lab/task1/multiprocessing_sum.py:24-25 | every chunk sum of the four-process run fits the signed 64-bit 'q' slot |
| RangeSum.ProcessTotal | students/k3340/Kakhikalo_Kirill/lr_2/lab/task1/multiprocessing_sum.py:9-21 | with 4 workers over [1, 10^9], the chunk sums plus the remainder sum are 500000000500000000 |
| RangeSum.CalculateWorker | students/k3340/Kakhikalo_Kirill/lr_2/lab/task1/multithreading_sum.py:23-25 | the worker writes the sum of its half-open range into its own slot and no other slot changes |
| RangeSum.CalculateSum | students/k3340/Kakhikalo_Kirill/lr_2/lab/task1/multithreading_sum.py:4-21 | every slot holds its chunk's sum, the total is sum(result) plus the remainder, and it equals the sum of from..to inclusive |
| RangeSum.ThreadingCalculateSum | students/k3340/Kakhikalo_Kirill/lr_2/lab/task1/multithreading_sum.py:4-21 | the 32-thread script returns 500000000500000000 |
| RangeSum.AsyncioCalculateSum | students/k3340/Kakhikalo_Kirill/lr_2/lab/task1/asyncio_sum.py:4-22 | the 32-coroutine script returns 500000000500000000 |
| RangeSum.Wrap64 | students/k3340/Kakhikalo_Kirill/lr_2/lab/task1/multiprocessing_sum.py:10 | a 'q' slot keeps a value congruent to the stored one modulo 2^64, and exactly the stored value when it fits in 64 bits |
| RangeSum.LargeChunkWraps | students/k3340/Kakhikalo_Kirill/lr_2/lab/task1/multiprocessing_sum.py:23-25 | the sum of [1, 2^33) does not fit a slot and is stored as -2^32 |
| RangeSum.ProcessWorker | students/k3340/Kakhikalo_Kirill/lr_2/lab/task1/multiprocessing_sum.py:23-25 | the slot receives the chunk sum cut to signed 64 bits (exact when it fits), and no other slot changes |
| RangeSum.MultiprocessingCalculateSum | students/k3340/Kakhikalo_Kirill/lr_2/lab/task1/multiprocessing_sum.py:4-21 | four slots, each holding its chunk's sum, and a total of 500000000500000000 |

## Left out

- HTTP fetching (`requests`), FastAPI routing and dependency injection, the Celery task wrapper and the ORM session: I/O and framework glue. An `HTTPException` is kept only as its status code and detail.
- Threads, processes, `asyncio.gather` and the shared-memory array: the workers run as a sequential loop; concurrency is not modelled.
- HMAC-SHA256, base64url encoding and decoding, UTF-8, JSON and python-jose's serialiser: foreign library code, represented by the functions of `Auth.Primitives`; `Auth.WellBehaved` lists the only laws assumed of them, and only the members whose contracts name it rely on it: `Auth.JwtEncodeParts`, `Auth.CreateAccessToken`, `Auth.B64UrlDecode` and `Auth.IssueThenVerify`.
- `datetime.utcnow()`, `datetime.now()`, `uuid.uuid4()` and `time.perf_counter()`: the clock and fresh ids are parameters; timing and the printed results are dropped.
- The two `print` calls of the expected and actual signatures in `get_current_user`: logging only.
- argon2 password hashing, `authenticate_user`, the login, user, password-change, category and `/parse` endpoints, and the second practice API: they are not part of this model.
- `parse_and_save_data` and the HTTP calls that `parse_and_save_data_single` makes after extraction (user, token, account, transaction): thread spawning and I/O.
- Auth.GetCurrentUser: the secret is a string; an unset `JWT_SECRET_KEY` (None) would raise before hashing. A `sub` that is not text, or text that is not a valid UUID, counts as "User not found", where `db.get` may raise instead.
- Auth.StatusCode: the uncaught exceptions (unpacking, decoding, JSON) are all reported as 500 with a fixed detail text; their messages are not modelled.
- Auth.CreateAccessToken: python-jose's choice of key handling for non-HMAC keys and its header options are not modelled; only the HS256 path with a text secret is.
- Auth.CreateAccessToken: an expiry past `datetime.max` (an OverflowError at auth.py:32) is not modelled, because instants are unbounded integers; a datetime under a key other than `exp`, `iat` or `nbf` (a TypeError in the JSON serialiser) is covered only by the laws of `Auth.WellBehaved`, which say nothing about such claims.
- PyStrings.ParseInt: accepts only ASCII digits; Python's `int()` also accepts surrounding whitespace, a sign, underscores between digits and non-ASCII decimal digits.
- PyStrings.LowerChar: lower-cases ASCII letters only; Python's `str.lower` also maps non-ASCII capitals.
- HtmlExtract.Username: inherits the ASCII-only lower-casing of `PyStrings.LowerChar`.
- Ledger.Store.CreateTransaction: the category foreign key is not checked; the database would reject a missing category at commit. Amounts and balances are unbounded integers.
- Ledger.Store.DeleteBudget: requires the foreign-key invariant `Valid()`; a budget whose account row is missing would raise AttributeError instead of answering 404 (the same holds for `Ledger.Store.DeleteTarget`).
- NestedStore.Db.Seed: account timestamps and the empty budget and target lists are not kept; transaction timestamps are kept as text.
- `get_all_users` of the first practice API returns the whole list unchanged and is not modelled.
