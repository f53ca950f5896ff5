# Bank ledger core in Dafny

This project models the core of a small Java console bank. Accounts come in
two variants: savings accounts, which earn monthly interest, and current
accounts. Each account:

- keeps its balance at or above a floor of 1000;
- logs every deposit, withdrawal and interest credit as a numbered transaction;
- caps one day's withdrawals at 50000.

Customers own exactly one account and one address. The customer repository
and the bank service keep customers in a list, with unique customer ids and
account numbers. The service also moves money between two customers'
accounts.

The model follows the shape of the Java code:

- **Account** (`Accounts.Account`): one class with the Java fields. Its
  methods update those fields in place. The two subclasses become a `Kind`
  value (`Savings(rate)` or `Current(companyName)`), and their constructors
  become `OpenSavings` and `OpenCurrent`.
- **Step functions**: every account method is proved to compute a pure step
  function of module `AccountRules`. That function acts on the value of the
  mutable fields (`Ledger`). The business rules are proved as lemmas about
  these functions.
- **Object invariant**: `Coherent` covers four facts, and every operation
  keeps it:
  - the balance floor holds;
  - the daily accumulator stays within [0, 50000];
  - every entry is well formed;
  - ids increase, and the last entry records the current balance.
- **Transaction counter**: the static counter of `Transaction` becomes a
  `TransactionCounter` object. It starts at 1 and is passed to every
  operation that logs.
- **Customer lists**: the repository's and the service's lists are `seq`
  fields that their methods reassign. The list algebra lives in module
  `Directory`: first match, `removeIf`, `remove` and uniqueness.
- **Transfer**: a transfer is specified by `Transfers.TransferStep`. That
  function keeps the compensating re-deposit exactly as written, and a lemma
  proves that branch can never run.

Java `null` arguments are `Option` values, or the nullable type `Account?`.
Exceptions are `Outcome`/`Result` values carrying a `BankError`. The current
date is an `int` parameter `today`.

Some behaviour of the code differs from what its names and messages suggest.
The model follows the code in each case:

- `withdraw` logs its entry as TRANSFER_OUT, not WITHDRAWAL.
- In a transfer, the receiver's entry is the DEPOSIT written by `deposit`.
  No TRANSFER_IN entry is ever written.
- The 2–50 character name length is checked only by `setCustName`. It is
  checked on the name before trimming, so `" a "` is accepted and stored as
  `"a"`. The length is Java's `length()`, which counts UTF-16 code units, so a
  char above U+FFFF counts twice. The constructor checks only that the name
  is not blank.
- `BankServices.deleteCustomer` removes a customer whatever its balance. Only
  `CustomerRepository.delete` refuses a positive balance.
- `addInterestToAllAccounts` has no per-account error handling. No account
  operation it calls can fail.
- A failed roll-back of a transfer has no error of its own. The code only
  prints a message and rethrows the deposit's error, and the branch is
  unreachable anyway.
- A withdrawal refused by the daily limit still resets the accumulator and
  its date when the day has changed.

Two consequences of the code are proved:

- `CustomerRepository.delete` never removes a customer whose account keeps
  the account invariant, as every account built by the constructors does.
  Such a balance is always at least 1000, so it is positive, and the answer
  is false (the last clause of `Repository.CustomerRepository.Delete`).
- The roll-back branch of `transfer` is dead code (`Transfers.RollbackUnreachable`).

## Model

| member | source | states |
|---|---|---|
| AccountRules.CompanyName | src/model/entity/CurrentAccount.java:15 | a null company name becomes "Unknown Company"; any other is trimmed, so it is empty exactly when blank and otherwise has no blank at either end |
| AccountRules.Interest | src/model/entity/SavingsAccount.java:29 | twelve times one month's savings interest is balance × rate / 100; a current account earns 0 (CurrentAccount.java:25-27) |
| AccountRules.DepositStep | src/model/entity/Account.java:60-67 | a deposit fails iff the amount is not positive and then changes nothing; a success adds the amount and uses one id |
| AccountRules.ResetIfNewDay | src/model/entity/Account.java:157-160 | after the reset the accumulator holds exactly what was withdrawn today and is dated today; balance and history are untouched |
| AccountRules.WithdrawStep | src/model/entity/Account.java:70-92 | a failed withdrawal keeps the balance, the history and the counter; a success takes exactly the amount, never below MIN_BALANCE, and uses one id |
| AccountRules.InterestStep | src/model/entity/Account.java:136-144 | crediting interest never fails, never lowers the balance and leaves the accumulator alone; it uses an id exactly when it changes the account |
| AccountRules.CheckOpening | src/model/entity/Account.java:35-43 | opening passes iff the upper-cased IFSC matches `[A-Z]{4}0[A-Z0-9]{6}` and the balance is at least the floor; a bad code is reported before a low balance |
| AccountRules.CheckSavingsOpening | src/model/entity/SavingsAccount.java:13-19 | a savings account passes iff the base checks pass and the rate lies in [0, 20]; the base errors come first, then RateOutOfRange |
| AccountRules.InterestNonNegative | src/model/entity/SavingsAccount.java:15-29 | a constructed account (rate in [0, 20], balance at or above the floor) never earns negative interest |
| AccountRules.DepositNoteTrimmed | src/model/entity/Account.java:64-65 | the deposit description is non-empty with no blank at either end, so the transaction's trim leaves it unchanged |
| AccountRules.WithdrawalNoteTrimmed | src/model/entity/Account.java:89-90 | the same for the withdrawal description |
| AccountRules.InterestNoteTrimmed | src/model/entity/Account.java:140-141 | the same for the interest description |
| AccountRules.CoherentMonotone | src/model/entity/Transaction.java:28 | the counter only grows, so an account coherent with an older counter stays coherent |
| AccountRules.AppendRecord | src/model/entity/Transaction.java:20-34 | appending a record with the counter's id, a positive amount, a trimmed description and the new balance keeps the account coherent with the advanced counter |
| AccountRules.DepositOutcomes | src/model/entity/Account.java:60-67 | a deposit fails iff the amount is not positive, and then changes nothing; otherwise the balance rises by the amount and exactly one DEPOSIT entry is appended, with the counter's id, the amount and the new balance |
| AccountRules.DepositKeepsCoherent | src/model/entity/Account.java:60-67 | a deposit preserves the account invariant and never lowers the counter |
| AccountRules.WithdrawErrors | src/model/entity/Account.java:73-84 | each of InvalidAmount, InsufficientFunds, MinimumBalance and DailyLimitExceeded happens exactly when the earlier checks pass and its own fails, and success happens exactly when all pass; a failure keeps the balance, history and counter, and only the daily-limit failure can reset the accumulator |
| AccountRules.WithdrawSucceeds | src/model/entity/Account.java:86-90 | a successful withdrawal takes exactly the amount, adds it to today's total, dates the total today and appends one TRANSFER_OUT entry with the amount and the new balance |
| AccountRules.WithdrawKeepsCoherent | src/model/entity/Account.java:70-92 | a withdrawal, whatever its outcome, preserves the account invariant, the balance floor included |
| AccountRules.WithdrawTodayTotal | src/model/entity/Account.java:153-165 | one withdrawal raises today's total by exactly the amount it takes and keeps the accumulator within [0, 50000] |
| AccountRules.DailyCap | src/model/entity/Account.java:153-165 | within one day, any sequence of withdrawals succeeds for at most 50000 minus what that day had already taken |
| AccountRules.CurrentEarnsNothing | src/model/entity/CurrentAccount.java:25-27 | crediting interest to a current account changes nothing |
| AccountRules.ZeroRateEarnsNothing | src/model/entity/Account.java:136-144 | crediting interest at rate 0 changes nothing, since only positive interest is credited |
| AccountRules.InterestCredited | src/model/entity/Account.java:136-144 | positive interest raises the balance by the interest and appends one DEPOSIT entry for it; the accumulator is untouched |
| AccountRules.InterestKeepsCoherent | src/model/entity/Account.java:136-144 | an interest credit preserves the account invariant |
| AccountRules.CreditedBalance | src/model/entity/Account.java:136-144 | after a credit, the old history is a prefix and the balance has grown by the interest with one DEPOSIT entry when the interest is positive; otherwise the ledger is unchanged |
| Accounts.Account.constructor | src/model/entity/Account.java:32-46 | the base constructor stores the code upper-cased, the balance as max(0, balance), and an empty history |
| Accounts.Account.OpenSavings | src/model/entity/SavingsAccount.java:13-19 | it fails iff CheckSavingsOpening fails, with its error; otherwise it gives a fresh account that satisfies the invariant, holding the initial balance, the upper-cased code and no history |
| Accounts.Account.OpenCurrent | src/model/entity/CurrentAccount.java:13-16 | it fails iff CheckOpening fails; otherwise it gives a fresh account that satisfies the invariant, with company name "Unknown Company" for null and the trimmed name otherwise |
| Accounts.Account.Deposit | src/model/entity/Account.java:60-67 | the new fields, the outcome and the counter are exactly DepositStep of the old ones, and the invariant is kept |
| Accounts.Account.Withdraw | src/model/entity/Account.java:70-92 | the new fields, the outcome and the counter are exactly WithdrawStep of the old ones, and the invariant is kept |
| Accounts.Account.Log | src/model/entity/Account.java:64-65 | a new entry holding the counter's id, the current balance and the description as given is appended, and the counter advances by one |
| Accounts.Account.CheckDailyLimit | src/model/entity/Account.java:153-165 | on a new day the accumulator is reset and dated today, and the reset persists; the check fails iff the reset total plus the amount exceeds 50000 |
| Accounts.Account.CalculateInterest | src/model/entity/SavingsAccount.java:28-30 | savings interest is one twelfth of balance × rate / 100; a current account's interest is 0, as CurrentAccount.java:25-27 returns |
| Accounts.Account.AddInterestToBalance | src/model/entity/Account.java:136-144 | the new fields and the counter are exactly InterestStep of the old ones, and the invariant is kept |
| Accounts.Account.PrintStatement | src/model/entity/Account.java:111-125 | it shows the last min(count, size) entries in order, and none when count ≤ 0 or the history is empty |
| Accounts.Account.GetTransactions | src/model/entity/Account.java:104-106 | it returns the history as a value, which later operations cannot alter |
| Transactions.CheckTransaction | src/model/entity/Transaction.java:22-26 | construction passes iff the type is present, the amount is positive and the description is non-blank; the type is checked first, then the amount |
| Transactions.RecordWellFormed | src/model/entity/Transaction.java:20-34 | a record built from arguments that pass the checks has a positive amount and a trimmed, non-empty description |
| Transactions.TransactionCounter.constructor | src/model/entity/Transaction.java:14 | the first id handed out is 1 |
| Transactions.TransactionCounter.NewTransaction | src/model/entity/Transaction.java:20-34 | a failed check returns its error and uses no id; otherwise the record gets the current id and the trimmed description, the counter advances by one, and the record is well formed |
| Text.TrimIsSlice | src/model/entity/Transaction.java:33 | `trim` keeps one contiguous slice of its input, drops only chars ≤ U+0020 on either side of it, and leaves none at either end |
| Text.BlankIff | src/model/entity/Transaction.java:24 | `trim().isEmpty()` holds iff every char is ≤ U+0020 |
| Text.TrimIdempotent | src/model/entity/Customer.java:21 | trimming twice is trimming once |
| Text.TrimmedIsFixed | src/model/entity/Transaction.java:33 | a string with no blank at either end is its own trim |
| Text.IsIfsc | src/model/entity/Account.java:35 | a code matching `[A-Z]{4}0[A-Z0-9]{6}` is its own upper-case form, so upper-casing a matching code before storing it (line 40) keeps it matching |
| Text.ToUpper | src/model/entity/Account.java:40 | the result has the input's length, with a–z mapped to A–Z and every other char kept (ASCII only: see Left out) |
| Text.Trim | src/model/entity/Transaction.java:33 | the trimmed string is never longer than the input, and it is empty or has no char ≤ U+0020 at either end |
| Text.Utf16Decodes | src/model/entity/Customer.java:45 | a char below U+10000 is one code unit; any other is a high surrogate followed by a low surrogate that decode back to the char |
| Text.BmpLength | src/model/entity/Customer.java:45 | for a string without chars above U+FFFF, Java's `length()` is the number of chars |
| Text.UnitsHash | src/model/entity/Address.java:50-51 | the 31-multiplier hash over UTF-16 code units stays in the 32-bit `int` range |
| Text.Wrap32 | src/model/entity/Address.java:49-53 | the result is a 32-bit `int` congruent to the exact value modulo 2^32 |
| Text.StringHash | src/model/entity/Address.java:50-51 | `String.hashCode`, taken over the string's UTF-16 code units as Java does, always lies in the 32-bit `int` range |
| Text.UnitsHashIsPolynomial | src/model/entity/Address.java:50-51 | the wrapped hash is congruent modulo 2^32 to u[0]·31^(n−1) + … + u[n−1], the value `String.hashCode` documents, and equals it whenever that fits in an `int` |
| Text.StringHashExamples | src/model/entity/Address.java:50-51 | "ab" hashes to 3105, and U+1F600 hashes to 1772899 through its surrogate pair 0xD83D, 0xDE00 |
| Addresses.OrUnknown | src/model/entity/Address.java:12-13 | a null city or state becomes "Unknown"; any other is trimmed, so it is empty exactly when blank and otherwise has no blank at either end |
| Addresses.NewAddress | src/model/entity/Address.java:11-15 | the PIN is always six digits: an in-range PIN is kept and others are clamped to the nearest bound; a null city or state becomes "Unknown", others are trimmed |
| Addresses.Equals | src/model/entity/Address.java:38-46 | two addresses are equal iff they are the same value |
| Addresses.HashCode | src/model/entity/Address.java:49-53 | the hash is a 32-bit `int` |
| Addresses.HashCodeIsPolynomial | src/model/entity/Address.java:49-53 | the hash is 961 · city hash + 31 · state hash + PIN reduced to an `int`: congruent modulo 2^32, and equal when that value fits |
| Addresses.HashAgreesWithEquals | src/model/entity/Address.java:38-53 | equal addresses have equal hash codes |
| Customers.CheckCustomer | src/model/entity/Customer.java:13-18 | construction passes iff the id is positive, the name is non-blank, and an account and an address are given; the id is checked first, then the name |
| Customers.Customer.constructor | src/model/entity/Customer.java:20-23 | it stores the id, name, account and address it is given |
| Customers.Customer.Create | src/model/entity/Customer.java:12-24 | it fails iff CheckCustomer fails, with its error; otherwise it gives a fresh customer with the trimmed name |
| Customers.Customer.SetCustName | src/model/entity/Customer.java:44-50 | it fails iff the name is null, blank, or shorter than 2 or longer than 50 before trimming, and then keeps the name; otherwise it stores the trimmed name; the address never changes |
| Customers.SurrogatePairNameAccepted | src/model/entity/Customer.java:45 | a one-char name above U+FFFF is two code units long and is accepted, as Java's `length()` counts it |
| Customers.Customer.SetCustAddr | src/model/entity/Customer.java:52-56 | it fails iff the address is null; otherwise only the address is replaced |
| Customers.SameCustomer | src/model/entity/Customer.java:67-73 | two customers are equal iff their ids are equal |
| Customers.HashAgreesWithSameCustomer | src/model/entity/Customer.java:67-78 | `hashCode` (lines 76-78, the id, defined as Customers.HashCode) agrees with `equals`: equal customers have equal hash codes, and customer equality is reflexive, symmetric and transitive |
| Directory.FirstIndex | src/persistence/CustomerRepository.java:20-25 | the position `findFirst` stops at: no earlier entry has the id, the entry there has it, and it is within the list iff some entry has the id |
| Directory.WithoutId | src/persistence/CustomerRepository.java:28 | `removeIf` keeps exactly the entries whose id differs |
| Directory.RemoveAt | src/persistence/CustomerRepository.java:35 | removing one entry shifts the later entries down by one and keeps the earlier ones |
| Directory.IndexOfId | src/service/BankServices.java:41-46 | the scan stops at the first entry with the id, or at the end of the list |
| Directory.WithoutIdKeepsUnique | src/persistence/CustomerRepository.java:28 | `removeIf` on a list with unique ids and account numbers keeps them unique |
| Directory.WithoutIdAppend | src/persistence/CustomerRepository.java:28 | `removeIf` distributes over list concatenation |
| Directory.AppendKeepsUnique | src/persistence/CustomerRepository.java:11-16 | appending a customer whose id and account number are both new keeps the list unique |
| Directory.RemoveAtKeepsUnique | src/persistence/CustomerRepository.java:35 | removing an entry keeps the list unique |
| Directory.Upsert | src/persistence/CustomerRepository.java:27-30 | after an update the customer is last, no other entry has its id, and a search for the id finds it |
| Directory.UpsertLeavesOneEntry | src/persistence/CustomerRepository.java:27-30 | exactly one entry has the updated id, and the entries before it keep their order |
| Directory.UpsertKeepsUnique | src/persistence/CustomerRepository.java:27-30 | an update keeps the list unique when no other customer holds the new account number |
| Directory.UpsertMayBreakUnique | src/persistence/CustomerRepository.java:27-30 | an update does not re-check account numbers: if another customer holds the account number, the list is no longer unique |
| Repository.CustomerRepository.constructor | src/persistence/CustomerRepository.java:9 | the repository starts empty |
| Repository.CustomerRepository.HasCustomerId | src/persistence/CustomerRepository.java:38-40 | true iff some customer has the id |
| Repository.CustomerRepository.HasAccountNo | src/persistence/CustomerRepository.java:42-44 | true iff some customer's account has the number |
| Repository.CustomerRepository.Add | src/persistence/CustomerRepository.java:11-16 | it fails with DuplicateAccount iff the id or the account number is already present, leaving the list alone; otherwise it appends; the list stays unique |
| Repository.CustomerRepository.GetAll | src/persistence/CustomerRepository.java:18 | it returns the list as a value |
| Repository.CustomerRepository.FindById | src/persistence/CustomerRepository.java:20-25 | it fails with AccountNotFound iff no customer has the id; otherwise it returns the first customer with the id |
| Repository.CustomerRepository.Update | src/persistence/CustomerRepository.java:27-30 | the list becomes the upsert of the customer |
| Repository.CustomerRepository.Delete | src/persistence/CustomerRepository.java:32-36 | an unknown id fails with AccountNotFound; a positive balance gives false and keeps the list; otherwise the first entry with the id is removed and the answer is true; the list stays unique |
| Bank.BankServices.constructor | src/service/BankServices.java:11 | the service starts with no customers |
| Bank.BankServices.HasDuplicate | src/service/BankServices.java:106-110 | true iff some listed customer shares the id or the account number |
| Bank.BankServices.AddAccount | src/service/BankServices.java:14-21 | a duplicate fails with DuplicateAccount and appends nothing; otherwise the customer is appended; the ids and account numbers stay unique and every account keeps its invariant |
| Bank.BankServices.FindById | src/service/BankServices.java:41-46 | it fails with AccountNotFound iff no customer has the id; otherwise it returns the first customer with the id |
| Bank.BankServices.DeleteCustomer | src/service/BankServices.java:23-26 | an unknown id fails with AccountNotFound; otherwise the first customer with the id is removed, whatever its balance |
| Bank.BankServices.Deposit | src/service/BankServices.java:48-51 | an unknown id fails and changes nothing; otherwise the customer's account takes DepositStep and no other account changes |
| Bank.BankServices.Withdraw | src/service/BankServices.java:53-56 | an unknown id fails and changes nothing; otherwise the customer's account takes WithdrawStep and no other account changes |
| Bank.BankServices.Transfer | src/service/BankServices.java:58-90 | equal ids, then a missing sender, then a missing receiver fail before any account is touched; otherwise the two distinct accounts change exactly as TransferStep says and no other account changes |
| Bank.BankServices.MoveBetween | src/service/BankServices.java:66-89 | two customers at different positions of the list own different accounts, which change as TransferStep says; every other account is unchanged |
| Bank.BankServices.AddInterestToAllAccounts | src/service/BankServices.java:91-95 | every listed account ends up with its interest credited, and every account keeps its invariant |
| Bank.BankServices.PrintStatement | src/service/BankServices.java:97-100 | an unknown id fails; otherwise the last min(count, MAX_STATEMENT, size) entries are shown in order, never more than MAX_STATEMENT |
| Bank.BankServices.GetAllCustomers | src/service/BankServices.java:102-104 | it returns the list as a value |
| Bank.MoveFunds | src/service/BankServices.java:73-89 | withdraw, then deposit: the outcome, both accounts and the counter are exactly TransferStep, and both accounts keep their invariant; the re-deposit branch is proved dead and left out of the body (see Left out) |
| Transfers.TransferStep | src/service/BankServices.java:73-89 | a successful transfer keeps the sum of the two balances; a failed one leaves the receiver as it was and the sender's balance unchanged, whichever branch failed; the counter never goes back |
| Transfers.RollbackUnreachable | src/service/BankServices.java:79-88 | once the sender's withdrawal has succeeded, the receiver's deposit cannot fail, so the roll-back never runs |
| Transfers.TransferFailure | src/service/BankServices.java:74-79 | a transfer fails exactly when the withdrawal fails, with the same error; then no balance or history changes and no id is used |
| Transfers.TransferMovesMoney | src/service/BankServices.java:74-78 | a successful transfer moves the amount from sender to receiver, keeping the sum of the two balances; the sender logs TRANSFER_OUT and the receiver DEPOSIT, with consecutive ids |
| Transfers.TransferKeepsCoherent | src/service/BankServices.java:73-89 | both accounts keep their invariant through a transfer, whatever its outcome |
| Scenarios.MonthlyInterestExample | src/model/entity/SavingsAccount.java:28-30 | 2000 at 6% earns 10 in a month; the credit gives 2010 and one entry |
| Scenarios.MinimumBalanceExample | src/model/entity/Account.java:79-82 | withdrawing 500 from 1200 fails with MinimumBalance(700) and leaves 1200 |
| Scenarios.TransferExample | src/service/BankServices.java:75-77 | transferring 300 from 1500 to 500 leaves 1200 and 800 |
| Scenarios.DailyLimitExample | src/model/entity/Account.java:162-164 | after 49800 is withdrawn in a day, a further 500 that day fails with DailyLimitExceeded |

## Left out

- Console output is not modelled. This covers the confirmation messages, the statement table and the roll-back messages. `PrintStatement` returns the entries it would print.
- The clock is not modelled. `LocalDate.now()` becomes the `today` parameter, the timestamp of a transaction is dropped, and the accumulator's first date is the day the account was opened.
- Money is an exact `real`. IEEE `double` rounding, NaN and infinities are not modelled.
- Overflow of Java `int` is modelled only in the hash codes. Overflow in the transaction counter, in account and customer numbers, and in `size - count` inside `printStatement` is not modelled.
- `String.trim` is modelled on chars up to U+0020, as Java defines it. Chars above U+FFFF occupy two UTF-16 code units, but neither unit is ≤ U+0020, so trimming by chars agrees with trimming by units.
- Text.ToUpper: maps only a–z to A–Z. Java's `toUpperCase` follows the full Unicode case tables and the default locale: 'ſ' becomes 'S', 'ı' becomes 'I', 'ß' becomes "SS", ligatures such as 'ﬁ' become two letters, and in a Turkish locale 'i' becomes 'İ'. The full tables are not modelled.
- AccountRules.CheckOpening: because of the ASCII-only upper-casing, a code such as "ſBIN0123456", which Java upper-cases to "SBIN0123456" and accepts, is rejected here as InvalidIfsc. The reverse also happens: under a default locale that maps 'i' to 'İ' (Turkish, Azerbaijani), Java upper-cases "icic0001234" to "İCİC0001234", which fails the pattern, so Java rejects a code that the model accepts as "ICIC0001234".
- Accounts.Account.constructor: stores the ASCII upper-casing of the code, which differs from Java's stored code for the non-ASCII inputs listed above.
- The regular-expression engine is not modelled. The IFSC pattern is written out as a predicate.
- A `null` IFSC code, which makes the Java constructor throw a NullPointerException, is not modelled.
- `addAccount` reads its customer through `InputHandler`. That input handling is not part of this model, so `AddAccount` takes the customer as an argument.
- `displayAllAccounts`, `showDashboard`, the `toString` methods and the exception messages are formatting only, and are not modelled.
- The menu in `BankMain` and the `InputHandler` class are not part of this model.
- `util.BankConstants` is not part of this model. MIN_BALANCE is 1000, as the MinimumBalanceException message states. MAX_STATEMENT is taken as 50.
- `Customer.equals` and `Address.equals` against objects of another class are not modelled.
- Customers' accounts are always the `Account` class. The `BankAccount` interface and the casts to `Account` have no counterpart.
- The `accType` tag is stored but never checked against the variant, as in the source.
- Bank.BankServices.AddInterestToAllAccounts: states per account what the credit did. It does not state the order in which the ids were handed out across accounts.
- Bank.BankServices.Deposit: requires the service invariant (unique ids and account numbers, and every account coherent with the counter), which the source does not demand. Every list built through AddAccount from accounts opened through OpenSavings or OpenCurrent satisfies it, and every service method keeps it.
- Bank.BankServices.Withdraw: requires the service invariant, for the same reason.
- Bank.BankServices.Transfer: requires the service invariant, for the same reason.
- Bank.MoveFunds: the re-deposit to the sender after a failed deposit (BankServices.java:80-86) is not in the method body. Its branch holds `assert false`, because Transfers.RollbackUnreachable proves the deposit cannot fail after a successful withdrawal. The re-deposit is modelled in Transfers.TransferStep, which the method's contract matches.
- Accounts.Account.Deposit: requires the account invariant `Valid`, which the source does not demand. Every account opened through OpenSavings or OpenCurrent satisfies it, and every account method keeps it.
- Accounts.Account.Withdraw: requires the account invariant `Valid`, for the same reason.
- Accounts.Account.AddInterestToBalance: requires the account invariant `Valid`, for the same reason.
- Bank.BankServices.AddAccount: requires the service invariant and that the new customer's account keeps the account invariant under the current counter, which the source does not demand. An account opened through OpenSavings or OpenCurrent satisfies it.
- Bank.BankServices.DeleteCustomer: requires the service invariant, which the source does not demand; the method keeps it.
- Bank.BankServices.MoveBetween: requires the service invariant and the two customers' distinct positions in the list, which Transfer establishes before calling it.
- Bank.BankServices.AddInterestToAllAccounts: requires the service invariant, which the source does not demand; the method keeps it.
- Bank.MoveFunds: requires two distinct accounts that keep the account invariant; MoveBetween establishes both.
- Customers.Customer.SetCustName: requires the customer invariant (positive id and a trimmed, non-empty name), which the source does not demand. Every customer built by Create satisfies it, and both setters keep it.
- Customers.Customer.SetCustAddr: requires the customer invariant, for the same reason.
