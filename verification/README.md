# Zakat chaincode — a Dafny model

This project models the zakat smart contract of `fabric-zakat`. The contract
records charitable contributions (zakat) in a ledger's key-value world state
and enforces a two-phase lifecycle: a contribution is first *collected*, then
*distributed* once to a recipient (the *mustahik*). The model covers two
layers of `chaincode/zakat/zakat.go`:

- **Validators** (`validators.dfy`, module `Validators`). These cover:
  - the identifier pattern `^ZKT-YDSF-(MLG|JTM)-\d{6}-\d{4}$`, written as a
    character-level predicate;
  - the type, organization and status enumerations;
  - amount positivity;
  - the RFC 3339 timestamp check.

  The identifier validator and the three enumeration validators are each
  proved against an independent reference. For the identifier this is
  `ComposeId` (prefix, branch code, period, counter). For each enumeration
  it is a closed datatype. The amount and timestamp validators state their
  single test.
- **Ledger operations** (`ledger.dfy`, module `Ledger`). These are
  `InitLedger`, `AddZakat`, `QueryZakat`, `GetAllZakat`, `DistributeZakat` and
  `ZakatExists`, over a world state `map<string, Stored>`. A stored value is
  `Valid(record)` or `Corrupt` (bytes that do not decode).
  - A mutating operation returns `Ok(newStore)` or `Err(reason)`. A failure
    carries no store, so a failing call writes nothing.
  - The contracts state:
    - the validation order;
    - the error returned on each failure path;
    - exactly which key is written, and that every other key keeps its value;
    - which record fields a distribution keeps and which it sets.
- **Key order** (`key_order.dfy`, module `KeyOrder`). The full-range scan
  lists the entries in ascending lexicographic key order. `RangeScan`
  computes this listing. `ScanIsUnique` proves that the store determines it.
- **Lifecycle** (`lifecycle.dfy`, module `Lifecycle`). These are properties
  that relate several calls:
  - a query after a write returns what was written;
  - a repeated add, distribution or initialisation fails;
  - an invariant holds for every persisted record;
  - a record moves only forward through its states, over any sequence of
    transactions.

`types.dfy` (module `Types`) holds the data model.

Modelling choices:
- The record's type, status and organization are kept as strings. A decoded
  record may hold any string in those fields, and `DistributeZakat` compares
  the status as a string. Its test is `status == "distributed"`, so a record
  with any other status can be distributed.
- Amounts are `int` (whole IDR). The source declares them `float64` but only
  compares them.
- The RFC 3339 parser (`time.Parse`) belongs to the Go library. It is the
  parameter `parses: string -> bool`, meaning "parses under the RFC 3339
  layout".
- `time.Now()` in `InitLedger` is the parameter `now`. `InitLedger` still runs
  the timestamp validator on it, as the code does.
- Go's RE2 treats `\d` as ASCII `0-9`. Without the multi-line flag, `$`
  matches only at the very end of the text. The identifier predicate follows
  both rules, so every accepted identifier has exactly 24 characters.
- Key order compares the keys' characters by code point. For Unicode scalar
  values this matches the UTF-8 byte order the ledger uses.

Behaviour of the code worth noting:
- `AddZakat` (zakat.go:145-161) never compares the organization with the
  `MLG`/`JTM` code in the identifier.
  `Lifecycle.OrganizationNotMatchedToBranch` shows that a `JTM` identifier is
  accepted for `"YDSF Malang"`.
- The comment above `InitLedger` (zakat.go:89) says all fields are validated
  with the standard validation functions. Lines 116-130 validate the
  identifier, amount, type, organization and timestamp, but not the status.
- The record has one status string rather than one variant per lifecycle
  state, and so does the model. The invariant `Lifecycle.WellFormedRecord`
  states the agreement between status and distribution fields that the code
  maintains.

## Model

| member | source | states |
|---|---|---|
| `Validators.ValidateZakatId` | chaincode/zakat/zakat.go:32-42 | passes exactly for identifiers that are `ZKT-YDSF-` + `MLG`/`JTM` + `-` + 6 digits + `-` + 4 digits; such identifiers have length 24; otherwise it fails with the format error |
| `Validators.IdPatternCharacterization` | chaincode/zakat/zakat.go:33 | the character-level pattern holds if and only if the identifier is the composition of a branch code, a six-digit period and a four-digit counter |
| `Validators.ValidIdDecomposes` | chaincode/zakat/zakat.go:33 | an accepted identifier splits back into its branch, period and counter, and recomposing them gives the identifier |
| `Validators.ComposedIdIsValid` | chaincode/zakat/zakat.go:33 | every composition of a branch code, six digits and four digits is accepted |
| `Validators.ValidateTimestamp` | chaincode/zakat/zakat.go:45-51 | passes exactly when the RFC 3339 parse succeeds; otherwise fails with the timestamp error |
| `Validators.ValidateZakatType` | chaincode/zakat/zakat.go:54-59 | passes exactly for the name of a zakat type (`fitrah`, `maal`); otherwise fails with the type error |
| `Validators.ValidateAmount` | chaincode/zakat/zakat.go:62-67 | passes exactly for amounts greater than zero; every amount ≤ 0 fails with the amount error |
| `Validators.ValidateOrganization` | chaincode/zakat/zakat.go:70-75 | passes exactly for the name of an authorized organization (`YDSF Malang`, `YDSF Jatim`); otherwise fails with the organization error |
| `Validators.ValidateStatus` | chaincode/zakat/zakat.go:78-83 | passes exactly for the name of a lifecycle state (`collected`, `distributed`); otherwise fails with the status error |
| `Validators.EnumerationsAreTwoValued` | chaincode/zakat/zakat.go:53-83 | each enumeration validator accepts exactly its two literals |
| `Ledger.ZakatExists` | chaincode/zakat/zakat.go:270-277 | true exactly when the key holds a value, whether or not that value decodes |
| `Ledger.QueryZakat` | chaincode/zakat/zakat.go:197-213 | "does not exist" exactly for an absent key; an unmarshal failure exactly for a value that does not decode; otherwise the stored record unchanged |
| `Ledger.AddZakat` | chaincode/zakat/zakat.go:145-194 | checks the identifier, amount, type, organization and timestamp in that order and returns the first failure; then "already exists" for a present key; succeeds exactly when all checks pass and the key is absent; on success adds exactly key `id`, holding the given fields with status collected and no distribution, and leaves every other key unchanged |
| `Ledger.SeedFieldsValid` | chaincode/zakat/zakat.go:104-127 | the hard-coded seed identifier, amount, type and organization pass their validators, so those error branches of InitLedger cannot be taken |
| `Ledger.InitLedger` | chaincode/zakat/zakat.go:90-142 | fails with "already exists" when the seed key is present; otherwise fails only when the timestamp does not parse; on success writes exactly the seed key, holding John Doe, 1000000, maal, YDSF Malang and status collected, stamped with the given time |
| `Ledger.DistributeZakat` | chaincode/zakat/zakat.go:242-267 | fails for an absent key, an undecodable value, an already-distributed record, or an amount greater than the collected amount, in that order; an equal amount is allowed; on success overwrites only key `id` with no new keys; keeps ID, donor, amount, type, organization and timestamp; sets status distributed and the given recipient, amount and time; the recorded distribution never exceeds the amount |
| `Ledger.GetAllZakat` | chaincode/zakat/zakat.go:216-239 | fails with an unmarshal error exactly when some stored value does not decode, and then returns no partial list; otherwise returns one record per key in key-scan order, each the decoding of its key's value and the record QueryZakat returns for that key; returns an empty list for an empty store; in a store keyed by record identifier the list is strictly ascending by identifier and covers every key |
| `Ledger.DecodedScan` | chaincode/zakat/zakat.go:224-238 | when every value of the full scan decodes, no stored value is undecodable, each listed record is what QueryZakat returns for its key, and a store keyed by identifier lists its records in strictly ascending identifier order, covering every key |
| `KeyOrder.RangeScan` | chaincode/zakat/zakat.go:217 | the full-range scan lists every entry of the store exactly once, with keys strictly ascending, each with the value stored under it |
| `KeyOrder.ScanIsUnique` | chaincode/zakat/zakat.go:217 | two listings that both satisfy the full-range-scan conditions are equal, so the scan order is determined by the store |
| `Lifecycle.ExistsAgreesWithQuery` | chaincode/zakat/zakat.go:197-213 | ZakatExists is false exactly when QueryZakat reports "does not exist"; when it is true the query either returns a record or fails to decode |
| `Lifecycle.AddThenQuery` | chaincode/zakat/zakat.go:172-193 | after a successful AddZakat, QueryZakat on the same identifier returns the collected record with the given fields and empty distribution fields |
| `Lifecycle.AddTwiceFails` | chaincode/zakat/zakat.go:163-170 | a second AddZakat with the same identifier fails whatever its other inputs; with valid inputs it fails with "already exists" |
| `Lifecycle.DistributeTwiceFails` | chaincode/zakat/zakat.go:248-250 | right after a successful DistributeZakat, any further DistributeZakat on that identifier fails as already distributed |
| `Lifecycle.InitTwiceFails` | chaincode/zakat/zakat.go:91-99 | right after a successful InitLedger, a second InitLedger fails with "initial zakat already exists" |
| `Lifecycle.CollectThenDistributeExample` | chaincode/zakat/zakat.go:145-267 | a worked example of the full lifecycle: collecting 1000000 IDR of maal for John Doe, then distributing the full amount, yields status distributed with distribution 1000000; a further distribution is refused |
| `Lifecycle.OrganizationNotMatchedToBranch` | chaincode/zakat/zakat.go:145-161 | AddZakat accepts a `JTM` identifier with organization `YDSF Malang`, because the code never compares the two |
| `Lifecycle.InitLedgerPreservesWellFormed` | chaincode/zakat/zakat.go:104-139 | the seed record InitLedger writes satisfies the persisted-record invariant |
| `Lifecycle.AddZakatPreservesWellFormed` | chaincode/zakat/zakat.go:172-193 | the record AddZakat writes satisfies the persisted-record invariant: keyed by its valid identifier, validated fields, collected with no distribution |
| `Lifecycle.DistributeZakatPreservesWellFormed` | chaincode/zakat/zakat.go:248-266 | the record DistributeZakat writes satisfies the invariant: distributed, and the distribution does not exceed the amount |
| `Lifecycle.RunPreservesWellFormed` | chaincode/zakat/zakat.go:90-267 | any sequence of InitLedger, AddZakat and DistributeZakat calls, whether each succeeds or fails, keeps every persisted record well-formed |
| `Lifecycle.WellFormedDistributeFailures` | chaincode/zakat/zakat.go:243-246 | in a well-formed store DistributeZakat never fails with an unmarshal error |
| `Lifecycle.TransactionAdvances` | chaincode/zakat/zakat.go:90-267 | no transaction deletes a key; each existing key is either unchanged or moves from not-distributed to distributed with its collection fields kept; every new key holds a collected record |
| `Lifecycle.DistributedIsFinal` | chaincode/zakat/zakat.go:248-250 | a distributed record stays unchanged through any sequence of transactions |
| `Lifecycle.RunKeepsKeys` | chaincode/zakat/zakat.go:90-277 | no sequence of transactions removes a key from the world state |

## Left out

- JSON encoding and decoding of records. A stored value is either `Valid(record)` or `Corrupt`. Writing a record stores `Valid` of it, which assumes the codec round-trips. It does not always: Go strings are byte strings, and `json.Marshal` replaces invalid UTF-8 with U+FFFD, so a `muzakki` or `mustahik` holding invalid bytes does not read back unchanged through `QueryZakat` (zakat.go:188, 207). The model's strings are sequences of Unicode scalar values and cannot express that case.
- The error message texts. Each error return is an `Error` constructor. The query path wraps the decoder's error ("failed to unmarshal JSON"), while the listing path returns it bare. Both are `UnmarshalFailed`.
- `time.Parse` with the RFC 3339 layout. It is the `parses` parameter.
- `time.Now()`. It is the `now` parameter of `InitLedger`.
- The error return of `regexp.MatchString`. The pattern is a valid constant, so it never fails to compile. The identifier check is the predicate alone.
- Errors from the world state itself (`GetState`, `PutState`, `GetStateByRange`, the iterator's `Next`). These are host failures, not contract logic.
- The iterator's `HasNext`/`Next`/`Close` mechanics. The scan is the sequence `RangeScan`.
- The host's exclusion of composite keys from a range scan. The contract never writes one.
- `main`, chaincode construction and start-up. These are runtime bootstrap.
- Concurrency between transactions. The ledger orders and validates concurrent transactions, and the contract uses no compare-and-swap.
- `float64` semantics (NaN, infinities, rounding). Amounts are whole integers.
