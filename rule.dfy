/**
 * The textual rule codec of src/models/rule.rs: a rule is written as
 * `TAG,value,target` (or `MATCH,target`) and read back by splitting the
 * line on ','.
 */
module RuleText {
  import opened Wrappers
  import Models

  /** The tagged rule of src/models/rule.rs; MATCH carries no value. */
  datatype Rule =
    | Domain(value: string, target: string)
    | DomainSuffix(value: string, target: string)
    | DomainRegex(value: string, target: string)
    | DomainKeyword(value: string, target: string)
    | IpCIDR(value: string, target: string)
    | IpCIDR6(value: string, target: string)
    | IpAsn(value: string, target: string)
    | RuleSet(value: string, target: string)
    | GeoIp(value: string, target: string)
    | Match(target: string)

  const Keywords: set<string> :=
    {"DOMAIN", "DOMAIN-SUFFIX", "DOMAIN-REGEX", "DOMAIN-KEYWORD", "IP-CIDR",
     "IP-CIDR6", "RULE-SET", "IP-ASN", "GEOIP", "MATCH"}

  // ---------------------------------------------------------------- splitting and joining

  /** `s.split(sep)`: the pieces between separators; never empty. */
  function Split(s: string, sep: char): (parts: seq<string>)
    ensures |parts| >= 1
    ensures forall i :: 0 <= i < |parts| ==> sep !in parts[i]
    decreases |s|
  {
    if s == [] then [""]
    else if s[0] == sep then [""] + Split(s[1..], sep)
    else
      var rest := Split(s[1..], sep);
      [[s[0]] + rest[0]] + rest[1..]
  }

  /** The pieces put back together with `sep` between them. */
  function Join(parts: seq<string>, sep: char): string
    requires |parts| >= 1
    decreases |parts|
  {
    if |parts| == 1 then parts[0] else parts[0] + [sep] + Join(parts[1..], sep)
  }

  /** Splitting undoes joining, so no information is lost by `Split`. */
  lemma {:induction false} JoinSplit(s: string, sep: char)
    ensures Join(Split(s, sep), sep) == s
    decreases |s|
  {
    if s == [] {
    } else if s[0] == sep {
      JoinSplit(s[1..], sep);
      assert s == [sep] + s[1..];
    } else {
      JoinSplit(s[1..], sep);
      var rest := Split(s[1..], sep);
      if |rest| == 1 {
        assert s == [s[0]] + s[1..];
      } else {
        assert Join(rest, sep) == rest[0] + [sep] + Join(rest[1..], sep);
        assert [[s[0]] + rest[0]] + rest[1..] == [[s[0]] + rest[0]] + rest[1..];
        assert (([s[0]] + rest[0]) + [sep] + Join(rest[1..], sep)) == [s[0]] + Join(rest, sep);
        assert s == [s[0]] + s[1..];
      }
    }
  }

  /** A piece free of the separator splits as itself. */
  lemma {:induction false} SplitSingle(a: string, sep: char)
    requires sep !in a
    ensures Split(a, sep) == [a]
    decreases |a|
  {
    if a != [] {
      assert sep !in a[1..] by { assert forall c :: c in a[1..] ==> c in a; }
      SplitSingle(a[1..], sep);
      assert [a[0]] + a[1..] == a;
    }
  }

  /** A separator-free prefix followed by the separator splits off as the first piece. */
  lemma {:induction false} SplitCons(a: string, sep: char, b: string)
    requires sep !in a
    ensures Split(a + [sep] + b, sep) == [a] + Split(b, sep)
    decreases |a|
  {
    if a == [] {
      assert a + [sep] + b == [sep] + b;
      assert ([sep] + b)[1..] == b;
    } else {
      assert sep !in a[1..] by { assert forall c :: c in a[1..] ==> c in a; }
      SplitCons(a[1..], sep, b);
      assert (a + [sep] + b)[1..] == a[1..] + [sep] + b;
      assert [a[0]] + a[1..] == a;
    }
  }

  /** Joining separator-free pieces and splitting again gives the pieces back. */
  lemma {:induction false} SplitJoin(parts: seq<string>, sep: char)
    requires |parts| >= 1
    requires forall i :: 0 <= i < |parts| ==> sep !in parts[i]
    ensures Split(Join(parts, sep), sep) == parts
    decreases |parts|
  {
    if |parts| == 1 {
      SplitSingle(parts[0], sep);
    } else {
      SplitJoin(parts[1..], sep);
      SplitCons(parts[0], sep, Join(parts[1..], sep));
      assert [parts[0]] + parts[1..] == parts;
    }
  }

  // ---------------------------------------------------------------- writing

  /** The tag spelling that `Display::fmt` writes first for each variant. */
  function Keyword(r: Rule): (k: string)
    ensures k in Keywords && ',' !in k
  {
    match r
    case Domain(_, _) => "DOMAIN"
    case DomainSuffix(_, _) => "DOMAIN-SUFFIX"
    case DomainRegex(_, _) => "DOMAIN-REGEX"
    case DomainKeyword(_, _) => "DOMAIN-KEYWORD"
    case IpCIDR(_, _) => "IP-CIDR"
    case IpCIDR6(_, _) => "IP-CIDR6"
    case RuleSet(_, _) => "RULE-SET"
    case IpAsn(_, _) => "IP-ASN"
    case GeoIp(_, _) => "GEOIP"
    case Match(_) => "MATCH"
  }

  /** The comma-separated fields of a rule's text form. */
  function Fields(r: Rule): seq<string> {
    if r.Match? then [Keyword(r), r.target] else [Keyword(r), r.value, r.target]
  }

  /** The rule's string fields contain no ','; only such rules survive the round trip. */
  predicate CommaFree(r: Rule) {
    ',' !in r.target && (!r.Match? ==> ',' !in r.value)
  }

  /** `Display::fmt` for `Rule`. */
  function ToString(r: Rule): (s: string)
    ensures s == Join(Fields(r), ',')
  {
    JoinFields(r);
    match r
    case Domain(v, t) => "DOMAIN," + v + "," + t
    case DomainSuffix(v, t) => "DOMAIN-SUFFIX," + v + "," + t
    case DomainRegex(v, t) => "DOMAIN-REGEX," + v + "," + t
    case DomainKeyword(v, t) => "DOMAIN-KEYWORD," + v + "," + t
    case IpCIDR(v, t) => "IP-CIDR," + v + "," + t
    case IpCIDR6(v, t) => "IP-CIDR6," + v + "," + t
    case RuleSet(v, t) => "RULE-SET," + v + "," + t
    case IpAsn(v, t) => "IP-ASN," + v + "," + t
    case GeoIp(v, t) => "GEOIP," + v + "," + t
    case Match(t) => "MATCH," + t
  }

  lemma JoinFields(r: Rule)
    ensures r.Match? ==> Join(Fields(r), ',') == Keyword(r) + "," + r.target
    ensures !r.Match? ==> Join(Fields(r), ',') == Keyword(r) + "," + r.value + "," + r.target
  {
    var f := Fields(r);
    if !r.Match? {
      assert f[1..][1..] == [r.target];
      assert Join(f[1..], ',') == r.value + "," + r.target;
    }
  }

  /** `Serialize::serialize`: the rule is written as its display string. */
  function Serialize(r: Rule): (s: string)
    ensures s == ToString(r)
    ensures |Split(s, ',')| >= 2 && Split(s, ',')[0] == Keyword(r)
  {
    JoinSplitFields(r);
    ToString(r)
  }

  lemma JoinSplitFields(r: Rule)
    ensures |Split(ToString(r), ',')| >= 2 && Split(ToString(r), ',')[0] == Keyword(r)
  {
    var f := Fields(r);
    assert ToString(r) == f[0] + [','] + Join(f[1..], ',');
    SplitCons(f[0], ',', Join(f[1..], ','));
  }

  // ---------------------------------------------------------------- reading

  /** How many fields a known tag needs: MATCH two, the others three. */
  function FieldsNeeded(tag: string): nat {
    if tag == "MATCH" then 2 else 3
  }

  /**
   * The source indexes `parts[1]`, `parts[2]` without checking the count, so
   * a known tag with too few fields panics. This is the caller's obligation.
   */
  predicate HasRequiredFields(s: string) {
    var parts := Split(s, ',');
    parts[0] in Keywords ==> |parts| >= FieldsNeeded(parts[0])
  }

  /** `Deserialize::deserialize` for `Rule`: split on ',' and dispatch on the first field. */
  function Parse(s: string): (r: Result<Rule, string>)
    requires HasRequiredFields(s)
    ensures r.Failure? <==> Split(s, ',')[0] !in Keywords
    ensures r.Failure? ==> r.error == "invalid rule: " + s
    ensures r.Success? ==>
      var parts := Split(s, ',');
      Fields(r.value) == parts[..FieldsNeeded(parts[0])] && Keyword(r.value) == parts[0]
  {
    var parts := Split(s, ',');
    match parts[0]
    case "DOMAIN" => Success(Domain(parts[1], parts[2]))
    case "DOMAIN-SUFFIX" => Success(DomainSuffix(parts[1], parts[2]))
    case "RULE-SET" => Success(RuleSet(parts[1], parts[2]))
    case "IP-ASN" => Success(IpAsn(parts[1], parts[2]))
    case "DOMAIN-REGEX" => Success(DomainRegex(parts[1], parts[2]))
    case "DOMAIN-KEYWORD" => Success(DomainKeyword(parts[1], parts[2]))
    case "IP-CIDR" => Success(IpCIDR(parts[1], parts[2]))
    case "IP-CIDR6" => Success(IpCIDR6(parts[1], parts[2]))
    case "GEOIP" => Success(GeoIp(parts[1], parts[2]))
    case "MATCH" => Success(Match(parts[1]))
    case _ => Failure("invalid rule: " + s)
  }

  // ---------------------------------------------------------------- properties of the codec

  /** Reading back what was written gives the rule again, when no field holds a ','. */
  lemma RoundTrip(r: Rule)
    requires CommaFree(r)
    ensures HasRequiredFields(ToString(r))
    ensures Parse(ToString(r)) == Success(r)
  {
    SplitJoin(Fields(r), ',');
  }

  /** Fields after the ones a tag needs are ignored: `MATCH,a,b` reads as `Match("a")`. */
  lemma RoundTripWithTrailing(r: Rule, extra: string)
    requires CommaFree(r)
    ensures HasRequiredFields(ToString(r) + "," + extra)
    ensures Parse(ToString(r) + "," + extra) == Success(r)
  {
    var f := Fields(r);
    var ext := Split(extra, ',');
    var g := f + ext;
    assert forall i :: 0 <= i < |g| ==> ',' !in g[i];
    JoinSplit(extra, ',');
    JoinAppend(f, ext, ',');
    SplitJoin(g, ',');
    assert g[..|f|] == f;
  }

  lemma {:induction false} JoinAppend(a: seq<string>, b: seq<string>, sep: char)
    requires |a| >= 1 && |b| >= 1
    ensures Join(a + b, sep) == Join(a, sep) + [sep] + Join(b, sep)
    decreases |a|
  {
    if |a| == 1 {
      assert (a + b)[1..] == b;
    } else {
      JoinAppend(a[1..], b, sep);
      assert (a + b)[1..] == a[1..] + b;
    }
  }

  /** Distinct comma-free rules are written differently. */
  lemma ToStringInjective(r1: Rule, r2: Rule)
    requires CommaFree(r1) && CommaFree(r2)
    requires ToString(r1) == ToString(r2)
    ensures r1 == r2
  {
    RoundTrip(r1);
    RoundTrip(r2);
  }

  /** Any first field that is not one of the ten spellings is refused, whatever follows. */
  lemma UnknownTagRejected(tag: string, rest: string)
    requires ',' !in tag && tag !in Keywords
    ensures HasRequiredFields(tag + "," + rest)
    ensures Parse(tag + "," + rest) == Failure("invalid rule: " + tag + "," + rest)
  {
    var s := tag + "," + rest;
    assert s == tag + [','] + rest;
    SplitCons(tag, ',', rest);
    assert Split(s, ',')[0] == tag;
    assert "invalid rule: " + s == "invalid rule: " + tag + "," + rest;
  }

  // ---------------------------------------------------------------- record <-> tagged form

  /** The tagged form of a rule record; MATCH drops the value. */
  function FromRecord(rec: Models.Rule): (r: Rule)
    ensures r.target == rec.target
    ensures r.Match? <==> rec.tag.Match?
    ensures !r.Match? ==> r.value == rec.value
  {
    var v, t := rec.value, rec.target;
    match rec.tag
    case Domain => Domain(v, t)
    case DomainSuffix => DomainSuffix(v, t)
    case DomainRegex => DomainRegex(v, t)
    case DomainKeyword => DomainKeyword(v, t)
    case IpCIDR => IpCIDR(v, t)
    case IpCIDR6 => IpCIDR6(v, t)
    case IpAsn => IpAsn(v, t)
    case RuleSet => RuleSet(v, t)
    case GeoIp => GeoIp(v, t)
    case Match => Match(t)
  }

  /** The record form of a tagged rule; MATCH gets the empty value. */
  function ToRecord(r: Rule): (rec: Models.Rule)
    ensures rec.target == r.target
    ensures r.Match? ==> rec.value == ""
    ensures FromRecord(rec) == r
  {
    match r
    case Domain(v, t) => Models.Rule(Models.Domain, v, t)
    case DomainSuffix(v, t) => Models.Rule(Models.DomainSuffix, v, t)
    case DomainRegex(v, t) => Models.Rule(Models.DomainRegex, v, t)
    case DomainKeyword(v, t) => Models.Rule(Models.DomainKeyword, v, t)
    case IpCIDR(v, t) => Models.Rule(Models.IpCIDR, v, t)
    case IpCIDR6(v, t) => Models.Rule(Models.IpCIDR6, v, t)
    case IpAsn(v, t) => Models.Rule(Models.IpAsn, v, t)
    case RuleSet(v, t) => Models.Rule(Models.RuleSet, v, t)
    case GeoIp(v, t) => Models.Rule(Models.GeoIp, v, t)
    case Match(t) => Models.Rule(Models.Match, "", t)
  }

  /** A record survives the trip through the tagged form unless it is a MATCH with a value. */
  lemma RecordRoundTrip(rec: Models.Rule)
    ensures ToRecord(FromRecord(rec)) == rec <==> (rec.tag.Match? ==> rec.value == "")
  {
  }

  /** The MATCH record's value is dropped in the text form: `MATCH,target`. */
  lemma MatchRecordText(target: string, value: string)
    ensures ToString(FromRecord(Models.Rule(Models.Match, value, target))) == "MATCH," + target
  {
  }
}
