/**
 The contract's operations over the world state: InitLedger, AddZakat,
 QueryZakat, GetAllZakat, DistributeZakat and ZakatExists.

 A mutating operation maps the store to `Ok(store')` or to `Err(reason)`;
 a failure carries no store, so a failing call writes nothing and the world
 state stays as it was. Read-only operations return their value alone.
 JSON encoding is abstracted: a stored value either decodes to a record
 (`Valid`) or does not (`Corrupt`), and writing a record stores `Valid` of
 it.
 */
module Ledger {
  import opened Types
  import opened Validators
  import opened KeyOrder

  // ---------------------------------------------------------------------
  // Frames and record shapes

  /** `s'` is `s` with exactly the key `key` set to `v`, added or
      overwritten; every other key keeps its value. */
  ghost predicate OnlyKeyWritten(s: Store, s': Store, key: string, v: Stored) {
    && s'.Keys == s.Keys + {key}
    && s'[key] == v
    && forall k :: k in s && k != key ==> s'[k] == s[k]
  }

  /** `z` is a freshly collected zakat with the given inputs: status
      collected and no distribution recorded. */
  predicate IsFreshCollection(z: Zakat, id: string, muzakki: string, amount: int,
                              zakatType: string, organization: string, timestamp: string)
  {
    && z.id == id && z.muzakki == muzakki && z.amount == amount
    && z.zakatType == zakatType && z.organization == organization && z.timestamp == timestamp
    && z.status == Collected
    && z.mustahik == "" && z.distribution == 0 && z.distributedAt == ""
  }

  /** `after` is `before` marked distributed to `mustahik`: the collection
      fields are kept, the distribution fields are the given ones. */
  predicate IsDistributionOf(before: Zakat, after: Zakat, mustahik: string, amount: int, timestamp: string)
  {
    && after.id == before.id && after.muzakki == before.muzakki && after.amount == before.amount
    && after.zakatType == before.zakatType && after.organization == before.organization
    && after.timestamp == before.timestamp
    && after.status == Distributed
    && after.mustahik == mustahik && after.distribution == amount && after.distributedAt == timestamp
  }

  /** All five input validators of AddZakat pass. */
  predicate InputsValid(id: string, amount: int, zakatType: string, organization: string,
                        timestamp: string, parses: string -> bool)
  {
    && ValidateZakatId(id).Pass?
    && ValidateAmount(amount).Pass?
    && ValidateZakatType(zakatType).Pass?
    && ValidateOrganization(organization).Pass?
    && ValidateTimestamp(timestamp, parses).Pass?
  }

  // ---------------------------------------------------------------------
  // ZakatExists

  /** ZakatExists: a key exists when the store holds anything under it,
      decodable or not. */
  function ZakatExists(s: Store, id: string): (b: bool)
    ensures b <==> id in s
  {
    id in s
  }

  // ---------------------------------------------------------------------
  // QueryZakat

  /** QueryZakat: the decoded record under `id`. The identifier is not
      checked against the pattern. */
  function QueryZakat(s: Store, id: string): (r: Result<Zakat>)
    ensures r == Err(NotFound(id)) <==> id !in s
    ensures r == Err(UnmarshalFailed) <==> id in s && s[id] == Corrupt
    ensures r.Ok? <==> id in s && s[id].Valid?
    ensures r.Ok? ==> s[id] == Valid(r.value)
  {
    if id !in s then Err(NotFound(id))
    else
      match s[id]
      case Corrupt => Err(UnmarshalFailed)
      case Valid(z) => Ok(z)
  }

  // ---------------------------------------------------------------------
  // AddZakat

  /** AddZakat: validates the inputs in the order identifier, amount, type,
      organization, timestamp and reports the first failure; then refuses
      an existing key; then writes a collected record under `id`. The
      organization is not compared with the branch code in the identifier. */
  function AddZakat(s: Store, parses: string -> bool, id: string, muzakki: string, amount: int,
                    zakatType: string, organization: string, timestamp: string): (r: Result<Store>)
    ensures ValidateZakatId(id).Fail? ==> r == Err(InvalidIdFormat)
    ensures ValidateZakatId(id).Pass? && amount <= 0 ==> r == Err(InvalidAmount)
    ensures ValidateZakatId(id).Pass? && amount > 0 && ValidateZakatType(zakatType).Fail?
      ==> r == Err(InvalidType)
    ensures ValidateZakatId(id).Pass? && amount > 0 && ValidateZakatType(zakatType).Pass?
      && ValidateOrganization(organization).Fail?
      ==> r == Err(InvalidOrganization)
    ensures ValidateZakatId(id).Pass? && amount > 0 && ValidateZakatType(zakatType).Pass?
      && ValidateOrganization(organization).Pass? && !parses(timestamp)
      ==> r == Err(InvalidTimestamp)
    ensures InputsValid(id, amount, zakatType, organization, timestamp, parses) && id in s
      ==> r == Err(AlreadyExists(id))
    ensures r.Ok? <==> InputsValid(id, amount, zakatType, organization, timestamp, parses) && id !in s
    ensures r.Ok? ==>
      && id !in s
      && id in r.value && r.value[id].Valid?
      && IsFreshCollection(r.value[id].record, id, muzakki, amount, zakatType, organization, timestamp)
      && OnlyKeyWritten(s, r.value, id, r.value[id])
  {
    var idCheck := ValidateZakatId(id);
    if idCheck.Fail? then Err(idCheck.error)
    else
      var amountCheck := ValidateAmount(amount);
      if amountCheck.Fail? then Err(amountCheck.error)
      else
        var typeCheck := ValidateZakatType(zakatType);
        if typeCheck.Fail? then Err(typeCheck.error)
        else
          var orgCheck := ValidateOrganization(organization);
          if orgCheck.Fail? then Err(orgCheck.error)
          else
            var tsCheck := ValidateTimestamp(timestamp, parses);
            if tsCheck.Fail? then Err(tsCheck.error)
            else if ZakatExists(s, id) then Err(AlreadyExists(id))
            else
              var z := Zakat(id, muzakki, amount, zakatType, Collected, organization, timestamp, "", 0, "");
              var statusCheck := ValidateStatus(z.status);
              if statusCheck.Fail? then Err(InvalidStatus)
              else Ok(s[id := Valid(z)])
  }

  // ---------------------------------------------------------------------
  // InitLedger

  /** The key of the seed record. */
  const SeedId: string := "ZKT-YDSF-MLG-202311-0001"

  /** The hard-coded seed record validates: its identifier matches the
      pattern and its amount, type and organization pass. */
  lemma SeedFieldsValid()
    ensures ValidateZakatId(SeedId).Pass?
    ensures ValidateAmount(1000000).Pass?
    ensures ValidateZakatType("maal").Pass?
    ensures ValidateOrganization("YDSF Malang").Pass?
  {
    assert SeedId == ComposeId(Mlg, "202311", "0001");
    ComposedIdIsValid(Mlg, "202311", "0001");
  }

  /** InitLedger: refuses when the seed key is present; otherwise builds the
      seed record stamped `now`, validates it and writes it. Only the
      timestamp check can fail: the other fields are constants that pass. */
  function InitLedger(s: Store, parses: string -> bool, now: string): (r: Result<Store>)
    ensures SeedId in s ==> r == Err(InitialAlreadyExists)
    ensures SeedId !in s && !parses(now) ==> r == Err(InvalidInitial(InvalidTimestamp))
    ensures r.Ok? <==> SeedId !in s && parses(now)
    ensures r.Ok? ==>
      && SeedId in r.value && r.value[SeedId].Valid?
      && IsFreshCollection(r.value[SeedId].record, SeedId, "John Doe", 1000000, "maal", "YDSF Malang", now)
      && OnlyKeyWritten(s, r.value, SeedId, r.value[SeedId])
  {
    SeedFieldsValid();
    if SeedId in s then Err(InitialAlreadyExists)
    else
      var z := Zakat(SeedId, "John Doe", 1000000, "maal", Collected, "YDSF Malang", now, "", 0, "");
      var idCheck := ValidateZakatId(z.id);
      if idCheck.Fail? then Err(InvalidInitial(InvalidIdFormat))
      else
        var amountCheck := ValidateAmount(z.amount);
        if amountCheck.Fail? then Err(InvalidInitial(InvalidAmount))
        else
          var typeCheck := ValidateZakatType(z.zakatType);
          if typeCheck.Fail? then Err(InvalidInitial(InvalidType))
          else
            var orgCheck := ValidateOrganization(z.organization);
            if orgCheck.Fail? then Err(InvalidInitial(InvalidOrganization))
            else
              var tsCheck := ValidateTimestamp(z.timestamp, parses);
              if tsCheck.Fail? then Err(InvalidInitial(InvalidTimestamp))
              else Ok(s[SeedId := Valid(z)])
  }

  // ---------------------------------------------------------------------
  // DistributeZakat

  /** DistributeZakat: loads the record as QueryZakat does, refuses one
      already distributed and an amount above the collected amount, then
      overwrites the same key with the record marked distributed. The
      recipient, the timestamp and the sign of the amount are not checked. */
  function DistributeZakat(s: Store, id: string, mustahik: string, amount: int, timestamp: string): (r: Result<Store>)
    ensures id !in s ==> r == Err(NotFound(id))
    ensures id in s && s[id] == Corrupt ==> r == Err(UnmarshalFailed)
    ensures id in s && s[id].Valid? && s[id].record.status == Distributed
      ==> r == Err(AlreadyDistributed(id))
    ensures id in s && s[id].Valid? && s[id].record.status != Distributed && amount > s[id].record.amount
      ==> r == Err(AmountExceeded(amount, s[id].record.amount))
    ensures r.Ok? <==>
      id in s && s[id].Valid? && s[id].record.status != Distributed && amount <= s[id].record.amount
    ensures r.Ok? ==>
      && id in s && s[id].Valid?
      && r.value.Keys == s.Keys
      && id in r.value && r.value[id].Valid?
      && IsDistributionOf(s[id].record, r.value[id].record, mustahik, amount, timestamp)
      && r.value[id].record.distribution <= r.value[id].record.amount
      && OnlyKeyWritten(s, r.value, id, r.value[id])
  {
    match QueryZakat(s, id)
    case Err(e) => Err(e)
    case Ok(z) =>
      if z.status == Distributed then Err(AlreadyDistributed(id))
      else if amount > z.amount then Err(AmountExceeded(amount, z.amount))
      else
        var z' := z.(status := Distributed, mustahik := mustahik, distribution := amount,
                     distributedAt := timestamp);
        Ok(s[id := Valid(z')])
  }

  // ---------------------------------------------------------------------
  // GetAllZakat

  /** The ledger's keys are the records' identifiers. */
  predicate KeyedById(s: Store) {
    forall k :: k in s && s[k].Valid? ==> s[k].record.id == k
  }

  /** The identifiers of a list of records, in list order. */
  function Ids(zs: seq<Zakat>): (ids: seq<string>)
    ensures |ids| == |zs|
    ensures forall i :: 0 <= i < |zs| ==> ids[i] == zs[i].id
  {
    seq(|zs|, i requires 0 <= i < |zs| => zs[i].id)
  }

  /** A scan whose every value decodes: the store holds no undecodable
      value, the decoded list agrees with QueryZakat key by key, and in a
      store keyed by identifier the list is ordered by identifier. */
  lemma DecodedScan(s: Store, scan: seq<(string, Stored)>, zakats: seq<Zakat>)
    requires IsRangeScan(s, scan)
    requires |zakats| == |scan|
    requires forall j :: 0 <= j < |scan| ==> scan[j].1 == Valid(zakats[j])
    ensures forall k :: k in s ==> s[k].Valid?
    ensures forall i :: 0 <= i < |zakats| ==> QueryZakat(s, scan[i].0) == Ok(zakats[i])
    ensures KeyedById(s) ==>
      && StrictlyAscending(Ids(zakats))
      && forall k :: k in Ids(zakats) <==> k in s
  {
    forall k | k in s
      ensures s[k].Valid?
    {
      assert k in ScanKeys(scan);
      var j :| 0 <= j < |scan| && ScanKeys(scan)[j] == k;
      assert scan[j].1 == Valid(zakats[j]);
    }
    if KeyedById(s) {
      assert Ids(zakats) == ScanKeys(scan);
    }
  }

  /** GetAllZakat: scans the full key range and decodes every value in scan
      order; the first value that does not decode fails the whole call and
      no partial list is returned. */
  method GetAllZakat(s: Store) returns (r: Result<seq<Zakat>>)
    ensures r.Err? <==> exists k :: k in s && s[k] == Corrupt
    ensures r.Err? ==> r.error == UnmarshalFailed
    ensures s == map[] ==> r == Ok([])
    ensures r.Ok? ==>
      && |r.value| == |s|
      && forall i :: 0 <= i < |r.value| ==> s[RangeScan(s)[i].0] == Valid(r.value[i])
    ensures r.Ok? ==>
      forall i :: 0 <= i < |r.value| ==> QueryZakat(s, RangeScan(s)[i].0) == Ok(r.value[i])
    ensures r.Ok? && KeyedById(s) ==>
      && StrictlyAscending(Ids(r.value))
      && forall k :: k in Ids(r.value) <==> k in s
  {
    var scan := RangeScan(s);
    var zakats: seq<Zakat> := [];
    var i := 0;
    while i < |scan|
      invariant 0 <= i <= |scan|
      invariant |zakats| == i
      invariant forall j :: 0 <= j < i ==> scan[j].1 == Valid(zakats[j])
    {
      match scan[i].1
      case Corrupt =>
        assert s[scan[i].0] == Corrupt;
        return Err(UnmarshalFailed);
      case Valid(z) =>
        zakats := zakats + [z];
      i := i + 1;
    }
    DecodedScan(s, scan, zakats);
    r := Ok(zakats);
  }
}
