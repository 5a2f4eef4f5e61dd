/**
 Properties that relate several calls of the contract: what a query sees
 after a write, why a repeated call fails, the invariant every persisted
 record keeps, and the forward-only `collected -> distributed` lifecycle
 over any sequence of transactions.
 */
module Lifecycle {
  import opened Types
  import opened Validators
  import opened KeyOrder
  import opened Ledger

  // ---------------------------------------------------------------------
  // Transactions

  /** One invocation of a mutating entry point. */
  datatype Tx =
    | InitTx(now: string)
    | AddTx(id: string, muzakki: string, amount: int, zakatType: string, organization: string, timestamp: string)
    | DistributeTx(id: string, mustahik: string, amount: int, timestamp: string)

  function Execute(s: Store, parses: string -> bool, tx: Tx): Result<Store> {
    match tx
    case InitTx(now) => InitLedger(s, parses, now)
    case AddTx(id, muzakki, amount, t, org, ts) => AddZakat(s, parses, id, muzakki, amount, t, org, ts)
    case DistributeTx(id, mustahik, amount, ts) => DistributeZakat(s, id, mustahik, amount, ts)
  }

  /** The world state after a transaction commits, or unchanged when it fails. */
  function Commit(s: Store, parses: string -> bool, tx: Tx): Store {
    match Execute(s, parses, tx)
    case Ok(s') => s'
    case Err(_) => s
  }

  /** The world state after a sequence of transactions, in order. */
  function Run(s: Store, parses: string -> bool, txs: seq<Tx>): Store
    decreases |txs|
  {
    if txs == [] then s else Run(Commit(s, parses, txs[0]), parses, txs[1..])
  }

  // ---------------------------------------------------------------------
  // Reading back what was written

  /** ZakatExists and QueryZakat agree on absence: exactly the absent keys
      are reported missing by the query. */
  lemma ExistsAgreesWithQuery(s: Store, id: string)
    ensures !ZakatExists(s, id) <==> QueryZakat(s, id) == Err(NotFound(id))
    ensures ZakatExists(s, id) <==> QueryZakat(s, id).Ok? || QueryZakat(s, id) == Err(UnmarshalFailed)
  {
  }

  /** After a successful AddZakat, QueryZakat returns the collected record
      with the given fields and no distribution. */
  lemma AddThenQuery(s: Store, parses: string -> bool, id: string, muzakki: string, amount: int,
                     zakatType: string, organization: string, timestamp: string)
    requires AddZakat(s, parses, id, muzakki, amount, zakatType, organization, timestamp).Ok?
    ensures var s' := AddZakat(s, parses, id, muzakki, amount, zakatType, organization, timestamp).value;
      && QueryZakat(s', id).Ok?
      && QueryZakat(s', id).value ==
           Zakat(id, muzakki, amount, zakatType, Collected, organization, timestamp, "", 0, "")
  {
  }

  /** A second AddZakat with the same identifier fails, whatever its other
      inputs; with valid inputs the reason is that the key already exists. */
  lemma AddTwiceFails(s: Store, parses: string -> bool, id: string, muzakki: string, amount: int,
                      zakatType: string, organization: string, timestamp: string,
                      muzakki2: string, amount2: int, zakatType2: string, organization2: string,
                      timestamp2: string)
    requires AddZakat(s, parses, id, muzakki, amount, zakatType, organization, timestamp).Ok?
    ensures var s' := AddZakat(s, parses, id, muzakki, amount, zakatType, organization, timestamp).value;
      var again := AddZakat(s', parses, id, muzakki2, amount2, zakatType2, organization2, timestamp2);
      && again.Err?
      && (InputsValid(id, amount2, zakatType2, organization2, timestamp2, parses)
          ==> again.error == AlreadyExists(id))
  {
  }

  /** A second DistributeZakat on the same identifier fails as already
      distributed, whatever its recipient, amount and timestamp. */
  lemma DistributeTwiceFails(s: Store, id: string, mustahik: string, amount: int, timestamp: string,
                             mustahik2: string, amount2: int, timestamp2: string)
    requires DistributeZakat(s, id, mustahik, amount, timestamp).Ok?
    ensures var s' := DistributeZakat(s, id, mustahik, amount, timestamp).value;
      DistributeZakat(s', id, mustahik2, amount2, timestamp2) == Err(AlreadyDistributed(id))
  {
  }

  /** A second InitLedger fails: the seed key is then present. */
  lemma InitTwiceFails(s: Store, parses: string -> bool, now: string, now2: string)
    requires InitLedger(s, parses, now).Ok?
    ensures InitLedger(InitLedger(s, parses, now).value, parses, now2) == Err(InitialAlreadyExists)
  {
  }

  /** The full lifecycle of one zakat: collected, queried, distributed in
      full, and refused a second distribution. */
  lemma CollectThenDistributeExample(parses: string -> bool)
    requires parses("2023-11-28T12:00:00Z")
    ensures var id := "ZKT-YDSF-MLG-202311-0001";
      var added := AddZakat(map[], parses, id, "John Doe", 1000000, "maal", "YDSF Malang", "2023-11-28T12:00:00Z");
      && added.Ok?
      && QueryZakat(added.value, id).Ok?
      && QueryZakat(added.value, id).value.amount == 1000000
      && QueryZakat(added.value, id).value.status == Collected
      && var given := DistributeZakat(added.value, id, "Ahmad", 1000000, "2023-12-01T09:00:00Z");
      && given.Ok?
      && QueryZakat(given.value, id).Ok?
      && QueryZakat(given.value, id).value.status == Distributed
      && QueryZakat(given.value, id).value.distribution == 1000000
      && DistributeZakat(given.value, id, "Ahmad", 1, "2023-12-02T09:00:00Z") == Err(AlreadyDistributed(id))
  {
    SeedFieldsValid();
  }

  /** AddZakat does not compare the organization with the branch code of
      the identifier: a Jatim identifier is accepted for YDSF Malang. */
  lemma OrganizationNotMatchedToBranch(parses: string -> bool)
    requires parses("2023-11-28T12:00:00Z")
    ensures AddZakat(map[], parses, "ZKT-YDSF-JTM-202311-0007", "Jane Doe", 500000, "fitrah",
                     "YDSF Malang", "2023-11-28T12:00:00Z").Ok?
  {
    assert "ZKT-YDSF-JTM-202311-0007" == ComposeId(Jtm, "202311", "0007");
    ComposedIdIsValid(Jtm, "202311", "0007");
  }

  // ---------------------------------------------------------------------
  // The persisted-record invariant

  /** What every record this contract writes satisfies under its key: the
      key is its identifier and matches the pattern, the collection fields
      passed their validators, and the distribution fields agree with the
      status. */
  predicate WellFormedRecord(key: string, z: Zakat, parses: string -> bool) {
    && z.id == key
    && IsZakatId(key)
    && z.amount > 0
    && ValidateZakatType(z.zakatType).Pass?
    && ValidateOrganization(z.organization).Pass?
    && parses(z.timestamp)
    && (|| (z.status == Collected && z.mustahik == "" && z.distribution == 0 && z.distributedAt == "")
        || (z.status == Distributed && z.distribution <= z.amount))
  }

  /** Every key holds a decodable, well-formed record. */
  ghost predicate WellFormed(s: Store, parses: string -> bool) {
    forall k :: k in s ==> s[k].Valid? && WellFormedRecord(k, s[k].record, parses)
  }

  lemma InitLedgerPreservesWellFormed(s: Store, parses: string -> bool, now: string)
    requires WellFormed(s, parses)
    requires InitLedger(s, parses, now).Ok?
    ensures WellFormed(InitLedger(s, parses, now).value, parses)
  {
    SeedFieldsValid();
  }

  lemma AddZakatPreservesWellFormed(s: Store, parses: string -> bool, id: string, muzakki: string, amount: int,
                                    zakatType: string, organization: string, timestamp: string)
    requires WellFormed(s, parses)
    requires AddZakat(s, parses, id, muzakki, amount, zakatType, organization, timestamp).Ok?
    ensures WellFormed(AddZakat(s, parses, id, muzakki, amount, zakatType, organization, timestamp).value, parses)
  {
  }

  lemma DistributeZakatPreservesWellFormed(s: Store, parses: string -> bool, id: string, mustahik: string,
                                           amount: int, timestamp: string)
    requires WellFormed(s, parses)
    requires DistributeZakat(s, id, mustahik, amount, timestamp).Ok?
    ensures WellFormed(DistributeZakat(s, id, mustahik, amount, timestamp).value, parses)
  {
  }

  /** Any sequence of transactions, successful or not, keeps the store
      well-formed. */
  lemma {:induction false} RunPreservesWellFormed(s: Store, parses: string -> bool, txs: seq<Tx>)
    requires WellFormed(s, parses)
    ensures WellFormed(Run(s, parses, txs), parses)
    decreases |txs|
  {
    if txs != [] {
      var tx := txs[0];
      if Execute(s, parses, tx).Ok? {
        match tx
        case InitTx(now) => InitLedgerPreservesWellFormed(s, parses, now);
        case AddTx(id, muzakki, amount, t, org, ts) =>
          AddZakatPreservesWellFormed(s, parses, id, muzakki, amount, t, org, ts);
        case DistributeTx(id, mustahik, amount, ts) =>
          DistributeZakatPreservesWellFormed(s, parses, id, mustahik, amount, ts);
      }
      RunPreservesWellFormed(Commit(s, parses, tx), parses, txs[1..]);
    }
  }

  /** In a well-formed store a stored value always decodes, so DistributeZakat
      fails only for an absent key, a distributed record or an excessive
      amount. */
  lemma WellFormedDistributeFailures(s: Store, parses: string -> bool, id: string, mustahik: string,
                                     amount: int, timestamp: string)
    requires WellFormed(s, parses)
    ensures DistributeZakat(s, id, mustahik, amount, timestamp) != Err(UnmarshalFailed)
  {
  }

  // ---------------------------------------------------------------------
  // Forward-only lifecycle

  /** How one key's value may change in one transaction: not at all, or
      from a not-yet-distributed record to the same collection marked
      distributed. */
  predicate Advances(before: Stored, after: Stored) {
    || after == before
    || (&& before.Valid? && after.Valid?
        && before.record.status != Distributed
        && after.record.status == Distributed
        && after.record.id == before.record.id
        && after.record.muzakki == before.record.muzakki
        && after.record.amount == before.record.amount
        && after.record.zakatType == before.record.zakatType
        && after.record.organization == before.record.organization
        && after.record.timestamp == before.record.timestamp
        && after.record.distribution <= after.record.amount)
  }

  /** No transaction deletes a key or moves a record backwards; a key it
      adds holds a collected record. */
  lemma TransactionAdvances(s: Store, parses: string -> bool, tx: Tx)
    ensures var s' := Commit(s, parses, tx);
      && s.Keys <= s'.Keys
      && (forall k :: k in s ==> Advances(s[k], s'[k]))
      && (forall k :: k in s' && k !in s ==> s'[k].Valid? && s'[k].record.status == Collected)
  {
  }

  /** A distributed record is final: it survives any sequence of
      transactions unchanged. */
  lemma {:induction false} DistributedIsFinal(s: Store, parses: string -> bool, txs: seq<Tx>, id: string)
    requires id in s && s[id].Valid? && s[id].record.status == Distributed
    ensures id in Run(s, parses, txs)
    ensures Run(s, parses, txs)[id] == s[id]
    decreases |txs|
  {
    if txs != [] {
      TransactionAdvances(s, parses, txs[0]);
      DistributedIsFinal(Commit(s, parses, txs[0]), parses, txs[1..], id);
    }
  }

  /** No sequence of transactions removes a key. */
  lemma {:induction false} RunKeepsKeys(s: Store, parses: string -> bool, txs: seq<Tx>)
    ensures s.Keys <= Run(s, parses, txs).Keys
    decreases |txs|
  {
    if txs != [] {
      TransactionAdvances(s, parses, txs[0]);
      RunKeepsKeys(Commit(s, parses, txs[0]), parses, txs[1..]);
    }
  }
}
