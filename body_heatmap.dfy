/** The body-zone lookup of the heat-map page (BodyHeatmap.tsx): a
    category name is normalised (lower case, '&' spelled "and", whitespace
    runs collapsed, ends trimmed) and mapped to a body zone, first by exact
    key, then by the first key the name contains, else the chest. */
module BodyHeatmap {
  import opened Wrappers
  import opened Text

  /** The characters JavaScript's `\s` matches. */
  predicate IsJsSpace(c: char)
  {
    c == '\t' || c == '\n' || c == '\U{000B}' || c == '\U{000C}' || c == '\r' || c == ' ' ||
    c == '\U{00A0}' || c == '\U{1680}' || ('\U{2000}' <= c <= '\U{200A}') ||
    c == '\U{2028}' || c == '\U{2029}' || c == '\U{202F}' || c == '\U{205F}' ||
    c == '\U{3000}' || c == '\U{FEFF}'
  }

  /** `replace(/&/g, "and")` */
  function ReplaceAmp(s: string): (r: string)
    ensures '&' !in r
    ensures forall c :: c in r ==> c in s || c == 'a' || c == 'n' || c == 'd'
    ensures '&' !in s ==> r == s
  {
    if s == [] then []
    else (if s[0] == '&' then "and" else [s[0]]) + ReplaceAmp(s[1..])
  }

  /** Drops leading whitespace: the rest of `s` from its first non-space. */
  function DropSpaces(s: string): (r: string)
    ensures |r| <= |s| && r == s[|s| - |r|..]
    ensures r == [] || !IsJsSpace(r[0])
    ensures s == [] || !IsJsSpace(s[0]) ==> r == s
  {
    if s != [] && IsJsSpace(s[0]) then DropSpaces(s[1..]) else s
  }

  /** Drops trailing whitespace. */
  function DropTrailing(s: string): (r: string)
    ensures |r| <= |s| && r == s[..|r|]
    ensures r == [] || !IsJsSpace(r[|r| - 1])
    ensures s == [] || !IsJsSpace(s[|s| - 1]) ==> r == s
  {
    if s != [] && IsJsSpace(s[|s| - 1]) then DropTrailing(s[..|s| - 1]) else s
  }

  /** `trim()` */
  function Trim(s: string): string
  {
    DropTrailing(DropSpaces(s))
  }

  /** No two spaces in a row. */
  predicate NoDoubleSpace(s: string)
  {
    forall i :: 0 <= i < |s| - 1 ==> !(s[i] == ' ' && s[i + 1] == ' ')
  }

  /** `replace(/\s+/g, " ")`: each run of whitespace becomes one space. */
  function Collapse(s: string): (r: string)
    ensures forall c :: c in r ==> c == ' ' || (c in s && !IsJsSpace(c))
    ensures s == [] <==> r == []
    ensures s != [] && !IsJsSpace(s[0]) ==> r[0] == s[0]
    ensures s != [] && IsJsSpace(s[0]) ==> r[0] == ' '
    ensures NoDoubleSpace(r)
    decreases |s|
  {
    if s == [] then []
    else if IsJsSpace(s[0]) then
      var t := DropSpaces(s[1..]);
      SuffixMembers(s[1..], t);
      var rest := Collapse(t);
      ConsNoDoubleSpace(' ', rest);
      [' '] + rest
    else
      var rest := Collapse(s[1..]);
      ConsNoDoubleSpace(s[0], rest);
      [s[0]] + rest
  }

  /** Every whitespace character written as a plain space. */
  function Spaces(s: string): (r: string)
    ensures |r| == |s|
    ensures forall i :: 0 <= i < |s| ==> r[i] == if IsJsSpace(s[i]) then ' ' else s[i]
  {
    if s == [] then [] else [if IsJsSpace(s[0]) then ' ' else s[0]] + Spaces(s[1..])
  }

  /** Drops every space that follows a space. */
  function Squeeze(s: string): string
  {
    if s == [] then []
    else if s[0] == ' ' && |s| > 1 && s[1] == ' ' then Squeeze(s[1..])
    else [s[0]] + Squeeze(s[1..])
  }

  /** Replacing each run of whitespace by one space is writing every
      whitespace character as a space and then squeezing repeated spaces. */
  lemma {:induction false} CollapseIsSqueeze(s: string)
    ensures Collapse(s) == Squeeze(Spaces(s))
    decreases |s|
  {
    if s != [] {
      assert Spaces(s) == [Spaces(s)[0]] + Spaces(s[1..]);
      if IsJsSpace(s[0]) {
        var t := DropSpaces(s[1..]);
        CollapseIsSqueeze(t);
        SqueezeLeadingSpace(s[1..]);
      } else {
        CollapseIsSqueeze(s[1..]);
        assert ([s[0]] + Spaces(s[1..]))[1..] == Spaces(s[1..]);
      }
    }
  }

  /** A space followed by `u` squeezes to one space followed by the squeezed
      rest of `u` past its leading whitespace. */
  lemma {:induction false} SqueezeLeadingSpace(u: string)
    ensures Squeeze([' '] + Spaces(u)) == [' '] + Squeeze(Spaces(DropSpaces(u)))
    decreases |u|
  {
    var x := [' '] + Spaces(u);
    assert x[1..] == Spaces(u);
    if u != [] {
      assert Spaces(u) == [Spaces(u)[0]] + Spaces(u[1..]);
      if IsJsSpace(u[0]) {
        SqueezeLeadingSpace(u[1..]);
      }
    }
  }

  /** Every character of a suffix occurs in the whole. */
  lemma SuffixMembers(u: string, t: string)
    requires |t| <= |u| && t == u[|u| - |t|..]
    ensures forall c :: c in t ==> c in u
  {
    forall c | c in t ensures c in u {
      var k :| 0 <= k < |t| && t[k] == c;
      assert u[|u| - |t| + k] == c;
    }
  }

  /** Putting a character in front keeps single spacing unless both it and
      the old first character are spaces. */
  lemma ConsNoDoubleSpace(c: char, rest: string)
    requires NoDoubleSpace(rest)
    requires c != ' ' || rest == [] || rest[0] != ' '
    ensures NoDoubleSpace([c] + rest)
  {
    var r := [c] + rest;
    forall i | 0 <= i < |r| - 1 ensures !(r[i] == ' ' && r[i + 1] == ' ') {
      if i > 0 {
        assert r[i] == rest[i - 1] && r[i + 1] == rest[i];
      }
    }
  }

  /** `(s || "").toLowerCase().replace(/&/g, "and").replace(/\s+/g, " ").trim()` */
  function Norm(s: string): string
  {
    Trim(Collapse(ReplaceAmp(ToLowerAscii(s))))
  }

  /** What `Norm` produces: lower case, no '&', no whitespace but single
      inner spaces. */
  predicate Normal(s: string)
  {
    (forall c :: c in s ==> !IsAsciiUpper(c) && c != '&' && (IsJsSpace(c) ==> c == ' ')) &&
    NoDoubleSpace(s) &&
    (|s| > 0 ==> s[0] != ' ' && s[|s| - 1] != ' ')
  }

  lemma SliceKeepsNoDoubleSpace(s: string, a: nat, b: nat)
    requires a <= b <= |s| && NoDoubleSpace(s)
    ensures NoDoubleSpace(s[a..b])
    ensures forall x :: x in s[a..b] ==> x in s
  {
    var t := s[a..b];
    forall i | 0 <= i < |t| - 1 ensures !(t[i] == ' ' && t[i + 1] == ' ') {
      assert t[i] == s[a + i] && t[i + 1] == s[a + i + 1];
    }
    forall x | x in t ensures x in s {
      var k :| 0 <= k < |t| && t[k] == x;
      assert s[a + k] == x;
    }
  }

  lemma TrimOfCollapsed(c: string)
    requires NoDoubleSpace(c)
    ensures var t := Trim(c);
      NoDoubleSpace(t) && (forall x :: x in t ==> x in c) && (|t| > 0 ==> !IsJsSpace(t[0]) && !IsJsSpace(t[|t| - 1]))
  {
    var d := DropSpaces(c);
    assert d == c[|c| - |d|..|c|];
    SliceKeepsNoDoubleSpace(c, |c| - |d|, |c|);
    var t := DropTrailing(d);
    assert t == d[0..|t|];
    SliceKeepsNoDoubleSpace(d, 0, |t|);
    if |t| > 0 {
      assert t[0] == d[0];
    }
  }

  /** Whatever the input, the normalised name is `Normal`. */
  lemma NormIsNormal(s: string)
    ensures Normal(Norm(s))
  {
    var l := ToLowerAscii(s);
    var a := ReplaceAmp(l);
    assert forall x :: x in l ==> !IsAsciiUpper(x);
    assert forall x :: x in a ==> !IsAsciiUpper(x) && x != '&';
    TrimIsNormal(Collapse(a));
  }

  /** Trimming a single-spaced string free of upper case and '&' gives a
      `Normal` one. */
  lemma TrimIsNormal(c: string)
    requires NoDoubleSpace(c)
    requires forall x :: x in c ==> !IsAsciiUpper(x) && x != '&' && (IsJsSpace(x) ==> x == ' ')
    ensures Normal(Trim(c))
  {
    TrimOfCollapsed(c);
  }

  /** Only plain spaces, and never two in a row. */
  predicate SingleSpaced(s: string)
  {
    (forall c :: c in s ==> (IsJsSpace(c) ==> c == ' ')) && NoDoubleSpace(s)
  }

  lemma SingleSpacedTail(s: string)
    requires s != [] && SingleSpaced(s)
    ensures SingleSpaced(s[1..])
    ensures s[0] == ' ' && |s| > 1 ==> !IsJsSpace(s[1..][0])
  {
    assert s[1..] == s[1..|s|];
    SliceKeepsNoDoubleSpace(s, 1, |s|);
    if |s| > 1 {
      assert s[1] in s;
    }
  }

  lemma {:induction false} CollapseFixed(s: string)
    requires SingleSpaced(s)
    ensures Collapse(s) == s
    decreases |s|
  {
    if s != [] {
      var t := s[1..];
      SingleSpacedTail(s);
      CollapseFixed(t);
      if IsJsSpace(s[0]) {
        assert s[0] in s;
        assert DropSpaces(t) == t;
        assert Collapse(s) == [' '] + t;
      } else {
        assert Collapse(s) == [s[0]] + t;
      }
      assert s == [s[0]] + t;
    }
  }

  /** A `Normal` name normalises to itself. */
  lemma NormalFixed(s: string)
    requires Normal(s)
    ensures Norm(s) == s
  {
    assert ToLowerAscii(s) == s;
    assert ReplaceAmp(s) == s;
    assert SingleSpaced(s);
    CollapseFixed(s);
    assert s == [] || !IsJsSpace(s[0]);
    assert s == [] || !IsJsSpace(s[|s| - 1]);
  }

  /** Normalising twice is normalising once. */
  lemma NormIdempotent(s: string)
    ensures Norm(Norm(s)) == Norm(s)
  {
    NormIsNormal(s);
    NormalFixed(Norm(s));
  }

  datatype Zone = Head | Chest | Abdomen | Limbs

  /** The zone table, in its key order. */
  const ZONE_MAP: seq<(string, Zone)> := [
    ("airway", Head),
    ("ems operations", Head),
    ("clinical judgment", Head),
    ("respiration", Chest),
    ("ventilation", Chest),
    ("cardiology", Chest),
    ("trauma", Limbs),
    ("medical", Abdomen),
    ("medical & obgyn", Abdomen),
    ("obgyn", Abdomen)
  ]

  /** The table's own entry for `key`, if it has one. */
  function OwnLookup(table: seq<(string, Zone)>, key: string): (r: Option<Zone>)
    ensures r.None? <==> forall i :: 0 <= i < |table| ==> table[i].0 != key
    ensures r.Some? ==>
      exists i :: 0 <= i < |table| && table[i] == (key, r.value) && forall j :: 0 <= j < i ==> table[j].0 != key
  {
    if table == [] then None
    else if table[0].0 == key then Some(table[0].1)
    else
      var r := OwnLookup(table[1..], key);
      assert forall i :: 0 < i < |table| ==> table[i] == table[1..][i - 1];
      r
  }

  /** The zone of the first entry from position `i` on whose key `d`
      contains. */
  function FirstContained(table: seq<(string, Zone)>, d: string, i: nat): (r: Option<Zone>)
    requires i <= |table|
    ensures r.None? <==> forall k :: i <= k < |table| ==> !Contains(d, table[k].0)
    ensures r.Some? ==>
      exists k :: i <= k < |table| && Contains(d, table[k].0) && table[k].1 == r.value &&
        forall j :: i <= j < k ==> !Contains(d, table[j].0)
    decreases |table| - i
  {
    if i == |table| then None
    else if Contains(d, table[i].0) then Some(table[i].1)
    else FirstContained(table, d, i + 1)
  }

  /** The zone for a category name: exact key, then first contained key,
      then the chest. */
  function ZoneOf(domain: string): Zone
  {
    ZoneIn(ZONE_MAP, Norm(domain))
  }

  /** The zone a normalised name gets from a zone table. */
  function ZoneIn(table: seq<(string, Zone)>, d: string): Zone
  {
    match OwnLookup(table, d)
    case Some(z) => z
    case None => FirstContained(table, d, 0).GetOr(Chest)
  }

  /** `zoneForDomain`, reading the table's own keys only. */
  method ZoneForDomain(domain: string) returns (z: Zone)
    ensures z == ZoneOf(domain)
  {
    var d := Norm(domain);
    var direct := OwnLookup(ZONE_MAP, d);
    if direct.Some? {
      return direct.value;
    }
    var found := ScanContained(ZONE_MAP, d);
    return found.GetOr(Chest);
  }

  /** The fuzzy-contains loop of `zoneForDomain`: the table's entries in
      order, stopping at the first key the name contains. */
  method ScanContained(table: seq<(string, Zone)>, d: string) returns (r: Option<Zone>)
    ensures r == FirstContained(table, d, 0)
  {
    var i := 0;
    while i < |table|
      invariant 0 <= i <= |table|
      invariant FirstContained(table, d, i) == FirstContained(table, d, 0)
    {
      if Contains(d, table[i].0) {
        return Some(table[i].1);
      }
      i := i + 1;
    }
    return None;
  }

  /** The zone is that of a key equal to, or contained in, the normalised
      name, and the chest only when no key matches. */
  lemma ZoneComesFromMatchingKey(domain: string)
    ensures var d := Norm(domain);
      (exists k :: 0 <= k < |ZONE_MAP| && ZONE_MAP[k].1 == ZoneOf(domain) &&
        (ZONE_MAP[k].0 == d || Contains(d, ZONE_MAP[k].0))) ||
      (ZoneOf(domain) == Chest && forall k :: 0 <= k < |ZONE_MAP| ==> !Contains(d, ZONE_MAP[k].0))
  {
    ZoneInComesFromMatchingKey(ZONE_MAP, Norm(domain));
  }

  /** The same for any zone table and any name. */
  lemma ZoneInComesFromMatchingKey(table: seq<(string, Zone)>, d: string)
    ensures
      (exists k :: 0 <= k < |table| && table[k].1 == ZoneIn(table, d) &&
        (table[k].0 == d || Contains(d, table[k].0))) ||
      (ZoneIn(table, d) == Chest && forall k :: 0 <= k < |table| ==> !Contains(d, table[k].0))
  {
    match OwnLookup(table, d)
    case Some(z) =>
      var k :| 0 <= k < |table| && table[k] == (d, z);
    case None =>
      match FirstContained(table, d, 0)
      case Some(z) =>
        var k :| 0 <= k < |table| && Contains(d, table[k].0) && table[k].1 == z;
      case None =>
  }

  /** A name equal to a key gets that key's zone. */
  lemma ExactKeyZone(domain: string, k: nat)
    requires k < |ZONE_MAP| && Norm(domain) == ZONE_MAP[k].0
    ensures ZoneOf(domain) == ZONE_MAP[k].1
  {
    ZoneKeysDistinct();
    ExactKeyZoneIn(ZONE_MAP, Norm(domain), k);
  }

  /** A name equal to no key gets the zone of the first key, in table
      order, that it contains. */
  lemma FirstContainedKeyZone(domain: string, k: nat)
    requires k < |ZONE_MAP| && Contains(Norm(domain), ZONE_MAP[k].0)
    requires forall j :: 0 <= j < |ZONE_MAP| ==> ZONE_MAP[j].0 != Norm(domain)
    requires forall j :: 0 <= j < k ==> !Contains(Norm(domain), ZONE_MAP[j].0)
    ensures ZoneOf(domain) == ZONE_MAP[k].1
  {
    FirstContainedKeyZoneIn(ZONE_MAP, Norm(domain), k);
  }

  /** The table's keys are pairwise distinct. */
  lemma ZoneKeysDistinct()
    ensures forall i, j :: 0 <= i < j < |ZONE_MAP| ==> ZONE_MAP[i].0 != ZONE_MAP[j].0
  {
  }

  lemma ExactKeyZoneIn(table: seq<(string, Zone)>, d: string, k: nat)
    requires forall i, j :: 0 <= i < j < |table| ==> table[i].0 != table[j].0
    requires k < |table| && d == table[k].0
    ensures ZoneIn(table, d) == table[k].1
  {
    var z := OwnLookup(table, d).value;
    var i :| 0 <= i < |table| && table[i] == (d, z) && forall j :: 0 <= j < i ==> table[j].0 != d;
    assert i == k;
  }

  lemma FirstContainedKeyZoneIn(table: seq<(string, Zone)>, d: string, k: nat)
    requires k < |table| && Contains(d, table[k].0)
    requires forall j :: 0 <= j < |table| ==> table[j].0 != d
    requires forall j :: 0 <= j < k ==> !Contains(d, table[j].0)
    ensures ZoneIn(table, d) == table[k].1
  {
    var z := FirstContained(table, d, 0).value;
    var i :| 0 <= i < |table| && Contains(d, table[i].0) && table[i].1 == z &&
      forall j :: 0 <= j < i ==> !Contains(d, table[j].0);
    assert i == k;
  }

  /** "airway cardiology" contains the head key "airway" and the chest key
      "cardiology"; the earlier key wins. */
  lemma FirstKeyWins()
    ensures ZoneIn(ZONE_MAP, "airway cardiology") == Head
  {
    var d := "airway cardiology";
    assert d[..6] == ZONE_MAP[0].0;
    forall j | 0 <= j < |ZONE_MAP| ensures ZONE_MAP[j].0 != d {
      assert |ZONE_MAP[j].0| != |d| || ZONE_MAP[j].0[0] != d[0];
    }
    FirstContainedKeyZoneIn(ZONE_MAP, d, 0);
  }

  /** Case, '&' and spacing never change the zone. */
  lemma ZoneIgnoresSpelling(domain: string)
    ensures ZoneOf(Norm(domain)) == ZoneOf(domain)
  {
    NormIdempotent(domain);
  }

  /** The "medical & obgyn" entry can never be chosen: a normalised name
      has no '&', so it neither equals nor contains that key. */
  lemma AmpersandKeyUnreachable(domain: string)
    ensures Norm(domain) != ZONE_MAP[8].0
    ensures !Contains(Norm(domain), ZONE_MAP[8].0)
  {
    NormIsNormal(domain);
    var d := Norm(domain);
    var key := ZONE_MAP[8].0;
    assert key[8] == '&';
    assert '&' !in d;
    LackingLetter(d, key, '&');
  }

  /** An empty name falls back to the chest. */
  lemma EmptyNameIsChest()
    ensures ZoneOf("") == Chest
  {
    assert Norm("") == "";
    NoKeyLetterIsChest("");
  }

  /** What `ZONE_MAP[d]` yields on a plain object: an own entry, a property
      inherited from `Object.prototype`, or nothing. */
  datatype LookupValue = OwnZone(zone: Zone) | Inherited(name: string)

  /** Lower-case names of `Object.prototype` properties, the only inherited
      names a normalised string can spell. */
  const INHERITED_NAMES: set<string> := {"constructor", "__proto__"}

  /** `zoneForDomain` as written: the direct lookup also sees inherited
      properties, which are truthy and are returned as the "zone". */
  function ZoneForDomainAsWritten(domain: string): LookupValue
  {
    var d := Norm(domain);
    match OwnLookup(ZONE_MAP, d)
    case Some(z) => OwnZone(z)
    case None =>
      if d in INHERITED_NAMES then Inherited(d)
      else OwnZone(FirstContained(ZONE_MAP, d, 0).GetOr(Chest))
  }

  /** The two agree on every name but the inherited ones. */
  lemma AsWrittenAgreesElsewhere(domain: string)
    requires Norm(domain) !in INHERITED_NAMES
    ensures ZoneForDomainAsWritten(domain) == OwnZone(ZoneOf(domain))
  {
  }

  lemma LackingLetter(d: string, key: string, c: char)
    requires c in key && c !in d
    ensures !Contains(d, key)
  {
    if Contains(d, key) {
      ContainsChar(d, key, c);
    }
  }

  lemma KeyLetters()
    ensures forall k :: 0 <= k < 9 ==> 'a' in ZONE_MAP[k].0
    ensures 'b' in ZONE_MAP[9].0
  {
    assert ZONE_MAP[0].0[0] == 'a';
    assert ZONE_MAP[1].0[8] == 'a';
    assert ZONE_MAP[2].0[6] == 'a';
    assert ZONE_MAP[3].0[6] == 'a';
    assert ZONE_MAP[4].0[6] == 'a';
    assert ZONE_MAP[5].0[1] == 'a';
    assert ZONE_MAP[6].0[2] == 'a';
    assert ZONE_MAP[7].0[5] == 'a';
    assert ZONE_MAP[8].0[5] == 'a';
    assert ZONE_MAP[9].0[1] == 'b';
  }

  /** Every key has an 'a' or a 'b', so a name with neither gets the
      chest. */
  lemma NoKeyLetterIsChest(domain: string)
    requires 'a' !in Norm(domain) && 'b' !in Norm(domain)
    ensures ZoneOf(domain) == Chest
  {
    var d := Norm(domain);
    KeyLetters();
    forall k | 0 <= k < |ZONE_MAP| ensures !Contains(d, ZONE_MAP[k].0) && ZONE_MAP[k].0 != d {
      var key := ZONE_MAP[k].0;
      var c := if k == 9 then 'b' else 'a';
      LackingLetter(d, key, c);
    }
    assert OwnLookup(ZONE_MAP, d).None?;
    assert FirstContained(ZONE_MAP, d, 0).None?;
  }

  lemma ConstructorIsNotAKey()
    ensures OwnLookup(ZONE_MAP, "constructor").None?
  {
    forall j | 0 <= j < |ZONE_MAP| ensures ZONE_MAP[j].0 != "constructor" {
      assert |ZONE_MAP[j].0| != 11 || ZONE_MAP[j].0[0] != 'c';
    }
  }

  lemma ConstructorLetters()
    ensures "constructor" in INHERITED_NAMES
    ensures 'a' !in "constructor" && 'b' !in "constructor"
  {
  }

  /** A category spelled "constructor" in any case or spacing gets the
      `Object` constructor instead of a zone; the own-key lookup gives it
      the chest. */
  lemma ConstructorIsNotAZone(domain: string)
    requires Norm(domain) == "constructor"
    ensures ZoneForDomainAsWritten(domain) == Inherited("constructor")
    ensures ZoneOf(domain) == Chest
  {
    ConstructorIsNotAKey();
    ConstructorLetters();
    NoKeyLetterIsChest(domain);
  }
}
