# Banking demo: ledger and identity store

A Dafny model of the two services of a browser-only demo bank.

- **Ledger** (`BankingService`, module `Ledger`, Ledger.dfy) holds a sequence of accounts and an append-only sequence of transactions. It offers account create/update/delete, the queries "accounts of an owner" and "transactions of an account", and the balance-changing operations deposit, withdraw and transfer. Each of these checks its errors in a fixed order: invalid amount, same account, account not found, insufficient funds. The thrown errors become a returned `Outcome`.
- **Identity store** (`AuthService`, module `Auth`, Auth.dfy) holds the registered users and an optional session. It offers register, login and logout. Passwords are stored as the lowercase hex form of their SHA-256 digest. The digest is an uninterpreted function handed to the service's constructor. The hex encoder is modelled and proved in full (module `Hex`, Hex.dfy): it has length 2n, uses only `[0-9a-f]`, writes byte i at positions 2i and 2i+1, and is injective, which is shown through a decoder.
- Module `Seqs` (Seqs.dfy) models the JavaScript array methods the services use: `filter`, which keeps the satisfying elements with their multiplicities and order, and `findIndex`/`find`, which return the FIRST match.

Both services are classes whose fields are reassigned by their methods, as the source's `.set()` calls do. Every method states the whole new state. The ledger's invariant `Valid()` says that balances are non-negative and recorded amounts are positive. Each ledger method ensures `old(Valid()) ==> Valid()`. `UpdateAccount` is the exception: it keeps `Valid()` only when the patch does not set a negative balance. CreateAccount, Deposit, Withdraw and Transfer also state how the sum of all balances (`Total`) moves: deposit adds the amount, withdraw removes it, and transfer and create leave it unchanged.

Modelling choices that follow the code:
- Accounts are an array searched with `findIndex`. Ids are not assumed unique, so every lookup finds the first account with that id, and `updateAccount`/`deleteAccount` act on every account with that id.
- `updateAccount` takes a `Partial<Account>`, so it can overwrite `balance`, `id` and `createdAt` as well as the profile fields (`AccountPatch`).
- A successful login stores the whole user record in the session.
- A deposit followed by a withdrawal of the same amount restores the account only if its balance was non-negative beforehand. Otherwise the withdrawal can fail with insufficient funds. `DepositThenWithdraw` therefore requires that balance to be non-negative.

## Model

| member | source | states |
|---|---|---|
| Seqs.Filter | src/app/services/banking.service.ts:55 | `filter` returns no more elements than its input, and every element it returns satisfies the predicate |
| Seqs.FilterCount | src/app/services/banking.service.ts:59 | every element that satisfies the predicate is kept as often as it occurs in the input; every other element is dropped |
| Seqs.FilterAppend | src/app/services/banking.service.ts:59 | filtering commutes with concatenation, so the kept elements stay in their original order |
| Seqs.FilterKeepsAll | src/app/services/banking.service.ts:85 | a filter that rejects nothing returns its input unchanged |
| Seqs.FindFirst | src/app/services/banking.service.ts:94 | `findIndex` returns an index whose element matches and no earlier element matches; it returns None only when no element matches |
| Ledger.FindIndex | src/app/services/banking.service.ts:153-154 | the lookup by account id returns the first account with that id, or None when no account has it |
| Ledger.FindIndexSameIds | src/app/services/banking.service.ts:128-132 | the lookup depends only on the ids, so a balance change never changes which account a later operation finds |
| Ledger.TotalUpdate | src/app/services/banking.service.ts:97-101 | replacing one account changes the sum of balances by exactly the difference between the new and old balances |
| Ledger.TotalAppend | src/app/services/banking.service.ts:70 | appending an account adds its balance to the sum of balances |
| Ledger.AccountsByOwner | src/app/services/banking.service.ts:54-56 | `getAccountsByOwner` returns only accounts of that owner, and each of that owner's accounts as often as it is stored |
| Ledger.TransactionsByAccount | src/app/services/banking.service.ts:58-60 | `getTransactionsByAccount` returns exactly the transactions whose `accountId` or `targetAccountId` is the account, with multiplicity |
| Ledger.WithoutAccount | src/app/services/banking.service.ts:85 | the delete filter returns no account with that id, and every other account as often as it was stored |
| Ledger.DeleteAbsentIsNoOp | src/app/services/banking.service.ts:84-88 | deleting an id that no account has leaves the accounts unchanged |
| Ledger.BankingService.constructor | src/app/services/banking.service.ts:32-33 | the service starts from the stored accounts and transactions |
| Ledger.BankingService.CreateAccount | src/app/services/banking.service.ts:62-74 | appends one account with the given data, id and time and balance 0; existing accounts, the transactions and the total are unchanged; balances stay non-negative |
| Ledger.BankingService.UpdateAccount | src/app/services/banking.service.ts:76-82 | each account with that id becomes the account merged with the supplied fields; other accounts, length, order and transactions are unchanged; it is a no-op when no account has the id; the invariant is kept unless a negative balance is supplied |
| Ledger.BankingService.DeleteAccount | src/app/services/banking.service.ts:84-88 | removes exactly the accounts with that id, keeps the rest in order, keeps every transaction, and keeps balances non-negative |
| Ledger.BankingService.Deposit | src/app/services/banking.service.ts:90-115 | amount ≤ 0 fails with InvalidAmount; an unknown id fails with AccountNotFound; a failure changes nothing; on success the first account with the id gains exactly the amount, all other accounts and the count stay the same, one deposit transaction is appended at the end, and the total grows by the amount |
| Ledger.BankingService.Withdraw | src/app/services/banking.service.ts:117-146 | InvalidAmount, then AccountNotFound, then InsufficientFunds when the balance is below the amount; a failure changes nothing; on success the account loses exactly the amount and stays ≥ 0, the other accounts are unchanged, one withdrawal is appended, and the total drops by the amount |
| Ledger.BankingService.Transfer | src/app/services/banking.service.ts:148-176 | InvalidAmount, then SameAccount, then AccountNotFound for either side, then InsufficientFunds on the source; a failure changes nothing; on success the source is debited and the target credited by the amount, so their sum and the total are unchanged; other accounts are unchanged; one transfer naming both accounts is appended |
| Ledger.DepositThenWithdraw | src/app/services/banking.service.ts:90-146 | depositing x and then withdrawing x from an existing account whose balance is non-negative restores every account and appends exactly the deposit record and then the withdrawal record, with the default descriptions |
| Hex.HexDigit | src/app/services/auth.service.ts:48 | a value below 16 becomes one lowercase hex character that reads back as the same value |
| Hex.ByteToHex | src/app/services/auth.service.ts:48 | `toString(16).padStart(2, '0')` always yields the high digit followed by the low digit |
| Hex.PaddedByteDigits | src/app/services/auth.service.ts:48 | zero-padding the shortest base-16 form of a byte to width 2 gives exactly its two digits |
| Hex.HexEncode | src/app/services/auth.service.ts:47-49 | n bytes become 2n characters, all in `[0-9a-f]` |
| Hex.EncodeAt | src/app/services/auth.service.ts:47-49 | byte i is written at positions 2i and 2i+1 |
| Hex.DecodeEncode | src/app/services/auth.service.ts:47-49 | decoding the hex form returns the original bytes |
| Hex.EncodeInjective | src/app/services/auth.service.ts:47-49 | two byte strings have the same hex form if and only if they are equal |
| Auth.FindUser | src/app/services/auth.service.ts:54 | `users.find` by username yields the first user with that name, or nothing when none has it |
| Auth.FindUniqueUser | src/app/services/auth.service.ts:74 | when usernames are unique, the lookup finds the one user with that name |
| Auth.PasswordHash | src/app/services/auth.service.ts:43-50 | a password's stored hash is 64 lowercase hex characters |
| Auth.HashesMatchIffDigestsMatch | src/app/services/auth.service.ts:78 | two passwords have equal stored hashes if and only if their digests are equal |
| Auth.LoginChecksRegisteredPassword | src/app/services/auth.service.ts:72-84 | for a registered user with unique usernames, login finds that user and accepts exactly the passwords whose digest equals that of the registered password |
| Auth.AuthService.constructor | src/app/services/auth.service.ts:14-15 | the service starts from the stored users and session |
| Auth.AuthService.Register | src/app/services/auth.service.ts:52-70 | returns false with nothing changed when the username exists; otherwise appends exactly one user with the given id, username and full name and the password's hash, and returns true; the session never changes; unique usernames stay unique |
| Auth.AuthService.Login | src/app/services/auth.service.ts:72-84 | returns true exactly when a user with that username exists and the first one stores the password's hash, and then sets the session to that user; otherwise the session is unchanged; users are never changed |
| Auth.RegisterTwiceThenLogin | src/app/services/auth.service.ts:52-89 | from an empty store, registering "bob" succeeds and a second registration fails; a password with a different digest is refused, the right one logs Bob in, and logout clears the session |
| Auth.AuthService.Logout | src/app/services/auth.service.ts:86-89 | the session becomes empty and the users are unchanged |

## Left out

- Persistence: `loadAccounts`, `loadTransactions`, `save`, `loadUsers`, `loadSession`, `saveUsers` and `saveSession` are browser storage I/O with JSON encoding. The constructors take the loaded state as parameters, and saving is a no-op.
- SHA-256 and UTF-8 encoding (`crypto.subtle.digest`, `TextEncoder`) are foreign calls. They are the constructor parameter `digest`, typed to return 32 bytes.
- Generated ids and times: `Math.random().toString(36)` for account ids, `crypto.randomUUID()` for user and transaction ids, and `new Date()`. All are method parameters. No freshness is assumed, because every lookup models the first-match semantics of `findIndex`/`find`.
- Balances and amounts are JavaScript floating-point numbers, including NaN, which passes the `amount <= 0` test. They are modelled as unbounded integers, for example cents.
- The `async`/`await` suspension in `register` and `login` leaves a window between the duplicate check and the append. Each call is modelled as one atomic step.
- Ledger.BankingService.UpdateAccount: a `Partial<Account>` key that is present with the value `undefined` (such as `{ balance: undefined }`) makes the spread at banking.service.ts:78 store `undefined` in that field. `AccountPatch` cannot express this, because an account field here always holds a value; `None` means only that the key is absent.
- Angular `signal`/`computed` reactivity: the queries are plain functions of the current state rather than live views. The presentation component (src/app/app.ts) is not part of this model.
