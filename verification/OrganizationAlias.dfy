/** The audit's organisation aliases: zero-padded ordinals, their parsing, and the target filter. */
module OrganizationAlias {
  import opened Options

  const PREFIX := "ORG_"

  function DigitChar(d: nat): char
    requires d < 10
  {
    d as char + '0'
  }

  function Decimal(n: nat): string {
    if n < 10 then [DigitChar(n)] else Decimal(n / 10) + [DigitChar(n % 10)]
  }

  function PadStart(s: string, width: nat): string
    decreases width - |s|
  {
    if |s| < width then PadStart("0" + s, width) else s
  }

  /** The alias of the organisation at position `i`. */
  function Alias(i: nat): string {
    PREFIX + PadStart(Decimal(i + 1), 3)
  }

  predicate AllDigits(s: string) {
    forall i :: 0 <= i < |s| ==> '0' <= s[i] <= '9'
  }

  function DecimalValue(s: string): nat
    requires AllDigits(s)
  {
    if s == "" then 0 else 10 * DecimalValue(s[..|s| - 1]) + (s[|s| - 1] as int - '0' as int)
  }

  /** Matches `^ORG_(\d+)$` and reads the number. */
  function ParseAlias(alias: string): Option<nat> {
    if |alias| > |PREFIX| && alias[..|PREFIX|] == PREFIX && AllDigits(alias[|PREFIX|..]) then
      Some(DecimalValue(alias[|PREFIX|..]))
    else None
  }

  datatype AuditError = MalformedAlias | OutOfRange

  /** The organisations to audit; an absent or empty filter selects all. */
  function Targets(orgs: seq<string>, filter: Option<string>): Result<seq<string>, AuditError> {
    if filter.GetOr("") == "" then Ok(orgs)
    else match ParseAlias(filter.value)
      case None => Err(MalformedAlias)
      case Some(n) => if n < 1 || n > |orgs| then Err(OutOfRange) else Ok([orgs[n - 1]])
  }

  /** The position of an id; ids are primary keys. */
  function IndexOf(orgs: seq<string>, id: string): nat
    requires id in orgs
  {
    if orgs[0] == id then 0 else 1 + IndexOf(orgs[1..], id)
  }

  /** The coverage loop: one row, under its alias, per targeted organisation. */
  method Coverage(orgs: seq<string>, filter: Option<string>) returns (r: Result<seq<string>, AuditError>)
    ensures r.Err? <==> Targets(orgs, filter).Err?
    ensures r.Err? ==> r.error == Targets(orgs, filter).error
    ensures r.Ok? ==> |r.value| == |Targets(orgs, filter).value|
    ensures r.Ok? ==> forall k :: 0 <= k < |r.value| ==>
      Targets(orgs, Some(r.value[k])) == Ok([Targets(orgs, filter).value[k]])
  {
    var targets;
    match Targets(orgs, filter) {
      case Err(e) => return Err(e);
      case Ok(ids) => targets := ids;
    }
    var coverage := [];
    for n := 0 to |targets|
      invariant |coverage| == n
      invariant forall k :: 0 <= k < n ==> Targets(orgs, Some(coverage[k])) == Ok([targets[k]])
    {
      var i := IndexOf(orgs, targets[n]);
      IndexOfFinds(orgs, targets[n]);
      AliasSelectsItsOrganization(orgs, i);
      var alias := Alias(i);
      coverage := coverage + [alias];
    }
    r := Ok(coverage);
  }

  lemma {:induction false} IndexOfFinds(orgs: seq<string>, id: string)
    requires id in orgs
    ensures IndexOf(orgs, id) < |orgs| && orgs[IndexOf(orgs, id)] == id
  {
    if orgs[0] != id {
      IndexOfFinds(orgs[1..], id);
    }
  }

  lemma {:induction false} DecimalReadsBack(n: nat)
    ensures AllDigits(Decimal(n)) && Decimal(n) != "" && DecimalValue(Decimal(n)) == n
  {
    if n >= 10 {
      DecimalReadsBack(n / 10);
      var s := Decimal(n);
      assert s[..|s| - 1] == Decimal(n / 10);
    }
  }

  lemma {:induction false} LeadingZeroIsIgnored(s: string)
    requires AllDigits(s)
    ensures AllDigits("0" + s) && DecimalValue("0" + s) == DecimalValue(s)
  {
    if s == "" {
      assert "0" + s == "0" && "0"[..0] == "";
    } else {
      LeadingZeroIsIgnored(s[..|s| - 1]);
      assert ("0" + s)[..|s|] == "0" + s[..|s| - 1];
    }
  }

  lemma {:induction false} PaddingReadsBack(s: string, width: nat)
    requires AllDigits(s) && s != ""
    ensures AllDigits(PadStart(s, width)) && PadStart(s, width) != ""
    ensures DecimalValue(PadStart(s, width)) == DecimalValue(s)
    decreases width - |s|
  {
    if |s| < width {
      LeadingZeroIsIgnored(s);
      PaddingReadsBack("0" + s, width);
    }
  }

  /** Parsing the alias of any position gives that position's ordinal, however many digits it has. */
  lemma AliasParsesBack(i: nat)
    ensures ParseAlias(Alias(i)) == Some(i + 1)
  {
    DecimalReadsBack(i + 1);
    PaddingReadsBack(Decimal(i + 1), 3);
    assert Alias(i)[..|PREFIX|] == PREFIX;
    assert Alias(i)[|PREFIX|..] == PadStart(Decimal(i + 1), 3);
  }

  lemma {:induction false} DecimalLength(n: nat)
    ensures |Decimal(n)| >= 1
    ensures |Decimal(n)| == 1 <==> n < 10
    ensures |Decimal(n)| <= 2 <==> n < 100
    ensures |Decimal(n)| <= 3 <==> n < 1000
  {
    if n >= 10 {
      DecimalLength(n / 10);
    }
  }

  lemma {:induction false} PaddedShape(s: string, width: nat)
    ensures |PadStart(s, width)| == if |s| < width then width else |s|
    ensures var pad := |PadStart(s, width)| - |s|;
      PadStart(s, width)[pad..] == s && forall i :: 0 <= i < pad ==> PadStart(s, width)[i] == '0'
    decreases width - |s|
  {
    if |s| < width {
      PaddedShape("0" + s, width);
      var padded := PadStart(s, width);
      var pad := |padded| - |s|;
      assert padded[pad - 1..] == "0" + s;
      assert padded[pad..] == padded[pad - 1..][1..] && padded[pad - 1] == padded[pad - 1..][0];
    }
  }

  /** Aliases up to 999 have exactly three digits; larger ordinals are not padded. */
  lemma AliasShape(i: nat)
    ensures Alias(i)[..4] == "ORG_" && |Alias(i)| >= 7 && AllDigits(Alias(i)[4..])
    ensures |Alias(i)| == 7 <==> i < 999
    ensures i >= 999 ==> Alias(i)[4] != '0'
  {
    DecimalLength(i + 1);
    PaddedShape(Decimal(i + 1), 3);
    DecimalReadsBack(i + 1);
    PaddingReadsBack(Decimal(i + 1), 3);
    assert Alias(i)[4..] == PadStart(Decimal(i + 1), 3);
    if i >= 999 {
      LeadingDigit(i + 1);
      assert Alias(i)[4..][0] == Decimal(i + 1)[0];
    }
  }

  lemma {:induction false} LeadingDigit(n: nat)
    requires n > 0
    ensures |Decimal(n)| > 0 && Decimal(n)[0] != '0'
  {
    if n >= 10 {
      LeadingDigit(n / 10);
    }
  }

  /** The text is ORG_ and at least one digit. */
  ghost predicate LooksLikeAlias(text: string) {
    |text| > 4 && text[..4] == "ORG_" && forall i :: 4 <= i < |text| ==> '0' <= text[i] <= '9'
  }

  /**
    Without a filter all organisations are audited; a filter that does not look like an alias and
    one whose number is no ordinal are told apart, and every other selects the one it numbers.
   */
  lemma TargetsAre(orgs: seq<string>, filter: Option<string>)
    ensures filter == None || filter == Some("") ==> Targets(orgs, filter) == Ok(orgs)
    ensures filter.Some? && filter.value != "" ==>
      (Targets(orgs, filter) == Err(MalformedAlias) <==> !LooksLikeAlias(filter.value))
    ensures filter.Some? && LooksLikeAlias(filter.value) ==>
      AllDigits(filter.value[4..]) &&
      var n := DecimalValue(filter.value[4..]);
      Targets(orgs, filter) == if 1 <= n <= |orgs| then Ok([orgs[n - 1]]) else Err(OutOfRange)
  {
    if filter.Some? && |filter.value| > 4 {
      var text := filter.value;
      assert forall i :: 4 <= i < |text| ==> text[i] == text[4..][i - 4];
      assert AllDigits(text[4..]) <==> forall i :: 4 <= i < |text| ==> '0' <= text[i] <= '9';
    }
  }

  lemma AliasesAreInjective(i: nat, j: nat)
    requires Alias(i) == Alias(j)
    ensures i == j
  {
    AliasParsesBack(i);
    AliasParsesBack(j);
  }

  /** Filtering by an organisation's alias audits exactly that organisation. */
  lemma AliasSelectsItsOrganization(orgs: seq<string>, i: nat)
    requires i < |orgs|
    ensures Targets(orgs, Some(Alias(i))) == Ok([orgs[i]])
  {
    AliasParsesBack(i);
    assert Alias(i) != "";
  }
}
