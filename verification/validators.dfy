/**
 The field validators of the zakat chaincode. Each one either passes or
 fails with its own error; none reads or writes the store.

 The identifier check is a character-level reading of the pattern
 `^ZKT-YDSF-(MLG|JTM)-\d{6}-\d{4}$` under Go's RE2, where `\d` is the ASCII
 digit class and `$` (without the multi-line flag) matches only at the end
 of the text. Its reference definition is `ComposeId`: an identifier is
 valid exactly when it is the composition of a branch code, a six-digit
 period and a four-digit counter.

 The enumerated fields are checked by string comparison, as the contract
 does; each has a closed datatype as its reference definition.
 */
module Validators {
  import opened Types

  // ---------------------------------------------------------------------
  // Identifier

  predicate IsDigit(c: char) {
    '0' <= c <= '9'
  }

  predicate AllDigits(s: string) {
    forall i :: 0 <= i < |s| ==> IsDigit(s[i])
  }

  const IdPrefix: string := "ZKT-YDSF-"

  /** The identifier pattern, position by position: 9 literal characters,
      a 3-letter branch code, '-', 6 digits, '-', 4 digits. */
  predicate IsZakatId(id: string) {
    && |id| == 24
    && id[..9] == IdPrefix
    && (id[9..12] == "MLG" || id[9..12] == "JTM")
    && id[12] == '-'
    && AllDigits(id[13..19])
    && id[19] == '-'
    && AllDigits(id[20..])
  }

  /** The two branch codes the identifier may carry. */
  datatype Branch = Mlg | Jtm {
    function Code(): (c: string)
      ensures |c| == 3
    {
      match this
      case Mlg => "MLG"
      case Jtm => "JTM"
    }
  }

  /** A period (year and month) and a counter of the right widths. */
  predicate IsPeriodAndCounter(period: string, counter: string) {
    |period| == 6 && AllDigits(period) && |counter| == 4 && AllDigits(counter)
  }

  /** The identifier an organization branch gives its `counter`-th zakat of
      `period`. */
  function ComposeId(branch: Branch, period: string, counter: string): string {
    IdPrefix + branch.Code() + "-" + period + "-" + counter
  }

  /** A composed identifier has its parts at fixed offsets. */
  lemma ComposeIdLayout(branch: Branch, period: string, counter: string)
    requires IsPeriodAndCounter(period, counter)
    ensures var id := ComposeId(branch, period, counter);
      && |id| == 24
      && id[..9] == IdPrefix
      && id[9..12] == branch.Code()
      && id[12] == '-'
      && id[13..19] == period
      && id[19] == '-'
      && id[20..] == counter
  {
    var id := ComposeId(branch, period, counter);
    var code := branch.Code();
    assert id == IdPrefix + code + "-" + period + "-" + counter;
    assert id[..9] == IdPrefix;
    assert id[9..12] == code;
    assert id[13..19] == period;
    assert id[20..] == counter;
  }

  /** Every composition of well-formed parts passes the pattern. */
  lemma ComposedIdIsValid(branch: Branch, period: string, counter: string)
    requires IsPeriodAndCounter(period, counter)
    ensures IsZakatId(ComposeId(branch, period, counter))
  {
    ComposeIdLayout(branch, period, counter);
  }

  /** Every identifier that passes the pattern is a composition of
      well-formed parts: the branch, period and counter read back from it. */
  lemma ValidIdDecomposes(id: string)
    requires IsZakatId(id)
    ensures var branch := if id[9..12] == "MLG" then Mlg else Jtm;
      && IsPeriodAndCounter(id[13..19], id[20..])
      && id == ComposeId(branch, id[13..19], id[20..])
  {
    var branch := if id[9..12] == "MLG" then Mlg else Jtm;
    var period, counter := id[13..19], id[20..];
    var composed := ComposeId(branch, period, counter);
    ComposeIdLayout(branch, period, counter);
    assert id == id[..9] + id[9..12] + id[12..13] + id[13..19] + id[19..20] + id[20..];
    assert composed == composed[..9] + composed[9..12] + composed[12..13] + composed[13..19] + composed[19..20] + composed[20..];
  }

  /** The pattern accepts exactly the compositions of well-formed parts. */
  lemma IdPatternCharacterization(id: string)
    ensures IsZakatId(id) <==>
      exists branch, period, counter ::
        IsPeriodAndCounter(period, counter) && id == ComposeId(branch, period, counter)
  {
    if IsZakatId(id) {
      ValidIdDecomposes(id);
      var branch := if id[9..12] == "MLG" then Mlg else Jtm;
      assert IsPeriodAndCounter(id[13..19], id[20..]) && id == ComposeId(branch, id[13..19], id[20..]);
    }
    if exists branch, period, counter ::
        IsPeriodAndCounter(period, counter) && id == ComposeId(branch, period, counter) {
      var branch, period, counter :|
        IsPeriodAndCounter(period, counter) && id == ComposeId(branch, period, counter);
      ComposedIdIsValid(branch, period, counter);
    }
  }

  /** validateZakatID: fails with the format error unless the identifier
      matches the pattern. */
  function ValidateZakatId(id: string): (r: Check)
    ensures r.Pass? ==> |id| == 24
    ensures r.Pass? <==>
      exists branch, period, counter ::
        IsPeriodAndCounter(period, counter) && id == ComposeId(branch, period, counter)
    ensures r.Fail? ==> r.error == InvalidIdFormat
  {
    IdPatternCharacterization(id);
    if IsZakatId(id) then Pass else Fail(InvalidIdFormat)
  }

  // ---------------------------------------------------------------------
  // Timestamp

  /** validateTimestamp: the timestamp must parse under the RFC 3339 layout.
      The parser itself is the host's; `parses` is its verdict. */
  function ValidateTimestamp(ts: string, parses: string -> bool): (r: Check)
    ensures r.Pass? <==> parses(ts)
    ensures r.Fail? ==> r.error == InvalidTimestamp
  {
    if parses(ts) then Pass else Fail(InvalidTimestamp)
  }

  // ---------------------------------------------------------------------
  // Closed enumerations

  datatype ZakatType = Fitrah | Maal {
    function Name(): string {
      match this
      case Fitrah => "fitrah"
      case Maal => "maal"
    }
  }

  datatype Organization = YdsfMalang | YdsfJatim {
    function Name(): string {
      match this
      case YdsfMalang => "YDSF Malang"
      case YdsfJatim => "YDSF Jatim"
    }
  }

  /** The lifecycle states as a closed type: the reference definition that
      `ValidateStatus` is proved against. The record itself carries the
      status as a string (`Collected`, `Distributed`). */
  datatype StatusValue = CollectedStatus | DistributedStatus {
    function Name(): string {
      match this
      case CollectedStatus => Collected
      case DistributedStatus => Distributed
    }
  }

  /** validateZakatType: accepts exactly the names of the two zakat types. */
  function ValidateZakatType(t: string): (r: Check)
    ensures r.Pass? <==> exists k: ZakatType :: k.Name() == t
    ensures r.Fail? ==> r.error == InvalidType
  {
    assert Fitrah.Name() == "fitrah" && Maal.Name() == "maal";
    if t != "fitrah" && t != "maal" then Fail(InvalidType) else Pass
  }

  /** validateOrganization: accepts exactly the names of the two authorized
      organizations. */
  function ValidateOrganization(org: string): (r: Check)
    ensures r.Pass? <==> exists o: Organization :: o.Name() == org
    ensures r.Fail? ==> r.error == InvalidOrganization
  {
    assert YdsfMalang.Name() == "YDSF Malang" && YdsfJatim.Name() == "YDSF Jatim";
    if org != "YDSF Malang" && org != "YDSF Jatim" then Fail(InvalidOrganization) else Pass
  }

  /** validateStatus: accepts exactly the names of the two lifecycle states. */
  function ValidateStatus(status: string): (r: Check)
    ensures r.Pass? <==> exists s: StatusValue :: s.Name() == status
    ensures r.Fail? ==> r.error == InvalidStatus
  {
    assert CollectedStatus.Name() == "collected" && DistributedStatus.Name() == "distributed";
    if status != "collected" && status != "distributed" then Fail(InvalidStatus) else Pass
  }

  // ---------------------------------------------------------------------
  // Amount

  /** validateAmount: the amount must be strictly positive. */
  function ValidateAmount(amount: int): (r: Check)
    ensures r.Pass? <==> amount > 0
    ensures r.Fail? ==> r.error == InvalidAmount
  {
    if amount <= 0 then Fail(InvalidAmount) else Pass
  }

  /** Each enumerated validator accepts exactly two strings, and they differ. */
  lemma EnumerationsAreTwoValued(s: string)
    ensures ValidateZakatType(s).Pass? <==> s in {"fitrah", "maal"}
    ensures ValidateOrganization(s).Pass? <==> s in {"YDSF Malang", "YDSF Jatim"}
    ensures ValidateStatus(s).Pass? <==> s in {"collected", "distributed"}
  {
  }
}
