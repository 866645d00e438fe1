/**
 * The port-name codec. A caller addresses a port as
 * `<device>/<blade>/<port>`; the device names it `P07` when standalone and
 * `S1-P07` when clustered. Discovery reads device names back into blade and
 * port ids with leading zeros stripped.
 */
module PortNames {
  import opened Wrappers
  import opened Errors
  import opened Idents
  import opened Schema

  /** `_API_VALUES.BLADE_ID`: the one blade of a standalone device. */
  const BladeId: string := "1"

  datatype PortAddr = PortAddr(blade: string, port: string)

  // ----- str.split("/") -----

  /** `s.split("/")`: the segments between slashes, empty ones included. */
  function Split(s: string): (parts: seq<string>)
    ensures |parts| >= 1
    ensures forall i :: 0 <= i < |parts| ==> '/' !in parts[i]
  {
    if |s| == 0 then [""]
    else
      var rest := Split(s[1..]);
      if s[0] == '/' then [""] + rest else [[s[0]] + rest[0]] + rest[1..]
  }

  /** `"/".join(parts)`. */
  function Join(parts: seq<string>): string
    requires |parts| >= 1
  {
    if |parts| == 1 then parts[0] else parts[0] + "/" + Join(parts[1..])
  }

  /** Splitting yields one segment more than the string has slashes. */
  lemma {:induction false} SplitCount(s: string)
    ensures |Split(s)| == multiset(s)['/'] + 1
  {
    if |s| > 0 {
      SplitCount(s[1..]);
      assert s == [s[0]] + s[1..];
      assert multiset(s) == multiset([s[0]]) + multiset(s[1..]);
    }
  }

  /** Joining the segments gives the string back. */
  lemma {:induction false} SplitJoin(s: string)
    ensures Join(Split(s)) == s
  {
    if |s| > 0 {
      SplitJoin(s[1..]);
      var rest := Split(s[1..]);
      if s[0] == '/' {
        assert Split(s)[1..] == rest;
      } else if |rest| == 1 {
        assert [s[0]] + rest[0] == s;
      } else {
        assert Split(s)[1..] == rest[1..];
        assert Join(rest) == rest[0] + "/" + Join(rest[1..]);
      }
    }
  }

  /** A slash-free head splits off as the first segment. */
  lemma {:induction false} SplitCons(x: string, y: string)
    requires '/' !in x
    ensures Split(x + "/" + y) == [x] + Split(y)
  {
    if |x| > 0 {
      SplitCons(x[1..], y);
      assert (x + "/" + y)[1..] == x[1..] + "/" + y;
      assert [x[0]] + x[1..] == x;
    } else {
      assert (x + "/" + y)[1..] == y;
    }
  }

  /** Segments without slashes split back into themselves. */
  lemma {:induction false} JoinSplit(parts: seq<string>)
    requires |parts| >= 1
    requires forall i :: 0 <= i < |parts| ==> '/' !in parts[i]
    ensures Split(Join(parts)) == parts
  {
    if |parts| == 1 {
      NoSlashSplit(parts[0]);
    } else {
      JoinSplit(parts[1..]);
      SplitCons(parts[0], Join(parts[1..]));
    }
  }

  lemma {:induction false} NoSlashSplit(x: string)
    requires '/' !in x
    ensures Split(x) == [x]
  {
    if |x| > 0 {
      NoSlashSplit(x[1..]);
      assert [x[0]] + x[1..] == x;
    }
  }

  // ----- str.zfill and str.lstrip("0") -----

  function Zeros(n: nat): (z: string)
    ensures |z| == n
  {
    if n == 0 then "" else "0" + Zeros(n - 1)
  }

  lemma {:induction false} ZerosAreZeros(n: nat)
    ensures forall i :: 0 <= i < n ==> Zeros(n)[i] == '0'
  {
    if n > 0 {
      ZerosAreZeros(n - 1);
      assert Zeros(n) == "0" + Zeros(n - 1);
    }
  }

  /** `s.zfill(width)`: pad with zeros on the left, after a leading sign if there is one. */
  function ZFill(s: string, width: nat): (r: string)
    ensures |r| == if |s| >= width then |s| else width
  {
    if |s| >= width then s
    else if |s| > 0 && (s[0] == '+' || s[0] == '-') then [s[0]] + Zeros(width - |s|) + s[1..]
    else Zeros(width - |s|) + s
  }

  /** On a digit string, zero-filling only prepends zeros. */
  lemma ZFillDigits(s: string, width: nat)
    requires AllDigits(s)
    ensures ZFill(s, width) == Zeros(|ZFill(s, width)| - |s|) + s
    ensures AllDigits(ZFill(s, width))
  {
    var r := ZFill(s, width);
    ZerosAreZeros(|r| - |s|);
    if |s| > 0 {
      assert IsDigit(s[0]);
    }
    forall k | 0 <= k < |r| ensures IsDigit(r[k]) {
      if k >= |r| - |s| {
        assert r[k] == s[k - (|r| - |s|)];
      }
    }
  }

  /** `s.lstrip("0")`. */
  function StripZeros(s: string): (r: string)
    ensures |r| <= |s|
    ensures |r| > 0 ==> r[0] != '0'
  {
    if |s| > 0 && s[0] == '0' then StripZeros(s[1..]) else s
  }

  /** Stripping removes exactly a run of leading zeros. */
  lemma {:induction false} StripZerosShape(s: string)
    ensures s == Zeros(|s| - |StripZeros(s)|) + StripZeros(s)
  {
    if |s| > 0 && s[0] == '0' {
      StripZerosShape(s[1..]);
      var r := StripZeros(s);
      assert Zeros(|s| - |r|) == "0" + Zeros(|s| - 1 - |r|);
      assert s == "0" + s[1..];
    }
  }

  lemma StripZerosDigits(s: string)
    requires AllDigits(s)
    ensures AllDigits(StripZeros(s))
  {
    var r := StripZeros(s);
    StripZerosShape(s);
    forall k | 0 <= k < |r| ensures IsDigit(r[k]) {
      assert r[k] == s[|s| - |r| + k];
    }
  }

  lemma {:induction false} StripZerosPadded(k: nat, s: string)
    ensures StripZeros(Zeros(k) + s) == StripZeros(s)
  {
    if k > 0 {
      var x := Zeros(k) + s;
      assert Zeros(k) == "0" + Zeros(k - 1);
      assert x[0] == '0';
      assert x[1..] == Zeros(k - 1) + s;
      StripZerosPadded(k - 1, s);
    } else {
      assert Zeros(k) + s == s;
    }
  }

  // ----- building names -----

  /** `_build_port_name`: the port zero-filled to two places, `S<blade>-` only when clustered. */
  function BuildPortName(schema: Schema, blade: string, port: string): string
  {
    match schema
    case Clustered => "S" + blade + "-P" + ZFill(port, 2)
    case Standalone => "P" + ZFill(port, 2)
  }

  /** `_from_cs_port`: the two segments after the device address, which must be exactly two. */
  function FromCsPort(schema: Schema, address: string): (r: Result<string, Error>)
    ensures r.Err? ==> r.error == BadAddress
  {
    var parts := Split(address);
    if |parts| != 3 then Err(BadAddress) else Ok(BuildPortName(schema, parts[1], parts[2]))
  }

  /** An address is accepted exactly when it has two slashes. */
  lemma FromCsPortAccepts(schema: Schema, address: string)
    ensures FromCsPort(schema, address).Ok? <==> multiset(address)['/'] == 2
  {
    SplitCount(address);
  }

  // ----- parsing names -----

  /** The maximal run of ASCII digits at the start of `s` (the greedy `\d+`, or nothing). */
  function LeadingDigits(s: string): (d: string)
    ensures |d| <= |s| && d == s[..|d|] && AllDigits(d)
    ensures |d| < |s| ==> !IsDigit(s[|d|])
  {
    if |s| > 0 && IsDigit(s[0]) then [s[0]] + LeadingDigits(s[1..]) else ""
  }

  predicate IsLetter(c: char, upper: char, lower: char) {
    c == upper || c == lower
  }

  /**
   * `_parse_port_name`: `re.match` of `P(\d+)` or `S(\d+)-P(\d+)`, case
   * insensitive and anchored only at the start. A name the pattern does not
   * match leaves the port id `None`, and stripping it raises.
   */
  function ParsePortName(schema: Schema, name: string): (r: Result<PortAddr, Error>)
    ensures r.Err? ==> r.error == NameMismatch
    ensures r.Ok? && schema.Standalone? ==> r.value.blade == BladeId
  {
    match schema
    case Standalone =>
      if |name| >= 1 && IsLetter(name[0], 'P', 'p') then PortGroup(BladeId, name[1..]) else Err(NameMismatch)
    case Clustered =>
      if |name| >= 1 && IsLetter(name[0], 'S', 's') then BladeGroup(name[1..]) else Err(NameMismatch)
  }

  /** The `(\d+)-P(\d+)` part of the clustered pattern. */
  function BladeGroup(s: string): (r: Result<PortAddr, Error>)
    ensures r.Err? ==> r.error == NameMismatch
  {
    var b := LeadingDigits(s);
    var rest := s[|b|..];
    if |b| > 0 && |rest| >= 2 && rest[0] == '-' && IsLetter(rest[1], 'P', 'p') then
      PortGroup(StripZeros(b), rest[2..])
    else
      Err(NameMismatch)
  }

  /** The final `(\d+)` group; the blade id is already stripped. */
  function PortGroup(blade: string, s: string): (r: Result<PortAddr, Error>)
    ensures r.Err? ==> r.error == NameMismatch
    ensures r.Ok? ==> r.value.blade == blade
  {
    var p := LeadingDigits(s);
    if |p| > 0 then Ok(PortAddr(blade, StripZeros(p))) else Err(NameMismatch)
  }

  /** The two patterns, stated positionally. */
  predicate Matches(schema: Schema, name: string) {
    match schema
    case Standalone => |name| >= 2 && IsLetter(name[0], 'P', 'p') && IsDigit(name[1])
    case Clustered =>
      |name| >= 1 && IsLetter(name[0], 'S', 's') && BladeMatches(name[1..])
  }

  predicate BladeMatches(s: string) {
    exists i :: 1 <= i && i + 2 < |s| && AllDigits(s[..i]) && s[i] == '-' && IsLetter(s[i + 1], 'P', 'p') && IsDigit(s[i + 2])
  }

  lemma {:induction false} LeadingDigitsAll(s: string, k: nat)
    requires k <= |s| && AllDigits(s[..k]) && (k == |s| || !IsDigit(s[k]))
    ensures LeadingDigits(s) == s[..k]
  {
    if k > 0 {
      assert IsDigit(s[..k][0]);
      assert s[1..][..k - 1] == s[..k][1..];
      LeadingDigitsAll(s[1..], k - 1);
      assert s[1..][..k - 1] == s[1..k];
      assert s[..k] == [s[0]] + s[1..k];
    }
  }

  lemma PortGroupAccepts(blade: string, s: string)
    ensures PortGroup(blade, s).Ok? <==> |s| >= 1 && IsDigit(s[0])
  {
  }

  lemma BladeGroupSound(s: string)
    requires BladeGroup(s).Ok?
    ensures BladeMatches(s)
  {
    var b := LeadingDigits(s);
    var rest := s[|b|..];
    var i := |b|;
    assert s[..i] == b;
    assert s[i] == rest[0] && s[i + 1] == rest[1];
    PortGroupAccepts(StripZeros(b), rest[2..]);
    assert s[i + 2] == rest[2..][0];
  }

  lemma BladeGroupComplete(s: string)
    requires BladeMatches(s)
    ensures BladeGroup(s).Ok?
  {
    var i :| 1 <= i && i + 2 < |s| && AllDigits(s[..i]) && s[i] == '-' && IsLetter(s[i + 1], 'P', 'p') && IsDigit(s[i + 2]);
    LeadingDigitsAll(s, i);
    var rest := s[i..];
    assert rest[0] == '-' && IsLetter(rest[1], 'P', 'p');
    assert rest[2..][0] == s[i + 2];
    PortGroupAccepts(StripZeros(s[..i]), rest[2..]);
  }

  lemma BladeGroupAccepts(s: string)
    ensures BladeGroup(s).Ok? <==> BladeMatches(s)
  {
    if BladeGroup(s).Ok? {
      BladeGroupSound(s);
    }
    if BladeMatches(s) {
      BladeGroupComplete(s);
    }
  }

  /** Parsing succeeds exactly on the names the pattern matches. */
  lemma ParseAcceptsPattern(schema: Schema, name: string)
    ensures ParsePortName(schema, name).Ok? <==> Matches(schema, name)
  {
    if |name| >= 1 {
      if schema.Clustered? {
        BladeGroupAccepts(name[1..]);
      } else {
        PortGroupAccepts(BladeId, name[1..]);
      }
    }
  }

  /** A digit run followed by a non-digit is read no further. */
  lemma LeadingDigitsStop(x: string, t: string)
    requires AllDigits(x) && (|t| == 0 || !IsDigit(t[0]))
    ensures LeadingDigits(x + t) == x
  {
    LeadingDigitsAll(x + t, |x|);
    assert (x + t)[..|x|] == x;
  }

  /** A digit group that runs to the end of the name reads as itself, stripped. */
  lemma PortGroupOf(blade: string, z: string)
    requires AllDigits(z) && |z| > 0
    ensures PortGroup(blade, z) == Ok(PortAddr(blade, StripZeros(z)))
  {
    LeadingDigitsStop(z, "");
    assert z + "" == z;
  }

  lemma BladeGroupOf(b: string, z: string)
    requires AllDigits(b) && |b| > 0 && AllDigits(z) && |z| > 0
    ensures BladeGroup(b + "-P" + z) == Ok(PortAddr(StripZeros(b), StripZeros(z)))
  {
    var s := b + "-P" + z;
    assert s == b + ("-P" + z);
    LeadingDigitsStop(b, "-P" + z);
    assert s[|b|..] == "-P" + z;
    assert ("-P" + z)[2..] == z;
    PortGroupOf(StripZeros(b), z);
  }

  /**
   * Composition inverts decoding: the name built from digit segments reads
   * back as those segments with leading zeros stripped (the blade is the
   * fixed "1" when standalone).
   */
  lemma ParseBuild(schema: Schema, blade: string, port: string)
    requires AllDigits(blade) && AllDigits(port) && |port| > 0
    requires schema.Clustered? ==> |blade| > 0
    ensures ParsePortName(schema, BuildPortName(schema, blade, port))
      == Ok(PortAddr(if schema.Clustered? then StripZeros(blade) else BladeId, StripZeros(port)))
  {
    var z := ZFill(port, 2);
    ZFillDigits(port, 2);
    StripZerosPadded(|z| - |port|, port);
    var name := BuildPortName(schema, blade, port);
    if schema.Clustered? {
      assert name == "S" + (blade + "-P" + z);
      assert name[1..] == blade + "-P" + z;
      BladeGroupOf(blade, z);
    } else {
      assert name == "P" + z;
      assert name[1..] == z;
      PortGroupOf(BladeId, z);
    }
  }

  /** Segments without leading zeros survive the trip through a device name unchanged. */
  lemma ParseBuildCanonical(schema: Schema, blade: string, port: string)
    requires AllDigits(blade) && AllDigits(port) && |port| > 0 && port[0] != '0'
    requires schema.Clustered? ==> |blade| > 0 && blade[0] != '0'
    ensures ParsePortName(schema, BuildPortName(schema, blade, port))
      == Ok(PortAddr(if schema.Clustered? then blade else BladeId, port))
  {
    ParseBuild(schema, blade, port);
    assert StripZeros(port) == port;
    assert schema.Clustered? ==> StripZeros(blade) == blade;
  }

  /** Digits already in the form the builder writes: zero-filled to two places, no more. */
  predicate Canonical(d: string) {
    AllDigits(d) && |d| > 0 && d == ZFill(StripZeros(d), 2)
  }

  /** A name in canonical form is rebuilt exactly from what it decodes to. */
  lemma BuildParse(schema: Schema, blade: string, port: string)
    requires Canonical(port)
    requires schema.Clustered? ==> AllDigits(blade) && |blade| > 0 && blade[0] != '0'
    ensures
      var name := if schema.Clustered? then "S" + blade + "-P" + port else "P" + port;
      var r := ParsePortName(schema, name);
      r.Ok? && BuildPortName(schema, r.value.blade, r.value.port) == name
  {
    var name := if schema.Clustered? then "S" + blade + "-P" + port else "P" + port;
    if schema.Clustered? {
      assert StripZeros(blade) == blade;
      assert name == "S" + (blade + "-P" + port);
      assert name[1..] == blade + "-P" + port;
      BladeGroupOf(blade, port);
    } else {
      assert name == "P" + port;
      assert name[1..] == port;
      PortGroupOf(BladeId, port);
    }
  }

  /** A digit-free continuation does not change a successful parse: the match is a prefix match. */
  lemma ParsePrefix(schema: Schema, name: string, tail: string)
    requires ParsePortName(schema, name).Ok?
    requires |tail| == 0 || !IsDigit(tail[0])
    ensures ParsePortName(schema, name + tail) == ParsePortName(schema, name)
  {
    var full := name + tail;
    assert full[1..] == name[1..] + tail;
    if schema.Clustered? {
      BladeGroupPrefix(name[1..], tail);
    } else {
      PortGroupPrefix(BladeId, name[1..], tail);
    }
  }

  lemma PortGroupPrefix(blade: string, s: string, tail: string)
    requires |tail| == 0 || !IsDigit(tail[0])
    ensures PortGroup(blade, s + tail) == PortGroup(blade, s)
  {
    LeadingDigitsAppend(s, tail);
  }

  lemma BladeGroupPrefix(s: string, tail: string)
    requires BladeGroup(s).Ok?
    requires |tail| == 0 || !IsDigit(tail[0])
    ensures BladeGroup(s + tail) == BladeGroup(s)
  {
    var b := LeadingDigits(s);
    var rest := s[|b|..];
    LeadingDigitsAppend(s, tail);
    assert (s + tail)[|b|..] == rest + tail;
    assert (rest + tail)[2..] == rest[2..] + tail;
    PortGroupPrefix(StripZeros(b), rest[2..], tail);
  }

  lemma {:induction false} LeadingDigitsAppend(s: string, t: string)
    requires |LeadingDigits(s)| < |s| || |t| == 0 || !IsDigit(t[0])
    ensures LeadingDigits(s + t) == LeadingDigits(s)
  {
    var d := LeadingDigits(s);
    if |d| < |s| {
      assert (s + t)[..|d|] == d;
      assert (s + t)[|d|] == s[|d|];
      LeadingDigitsAll(s + t, |d|);
    } else {
      assert s == d;
      LeadingDigitsStop(s, t);
    }
  }

  /** ASCII case-insensitive equality of characters (Python 2 `re.IGNORECASE`). */
  predicate CaseEq(a: char, b: char) {
    || a == b
    || ('A' <= a <= 'Z' && b as int == a as int + 32)
    || ('a' <= a <= 'z' && a as int == b as int + 32)
  }

  predicate CaseEqSeq(x: string, y: string) {
    |x| == |y| && forall i :: 0 <= i < |x| ==> CaseEq(x[i], y[i])
  }

  lemma {:induction false} LeadingDigitsCase(x: string, y: string)
    requires CaseEqSeq(x, y)
    ensures LeadingDigits(x) == LeadingDigits(y)
  {
    if |x| > 0 {
      assert CaseEqSeq(x[1..], y[1..]) by {
        forall i | 0 <= i < |x| - 1 ensures CaseEq(x[1..][i], y[1..][i]) {
          assert x[1..][i] == x[i + 1];
        }
      }
      LeadingDigitsCase(x[1..], y[1..]);
      assert CaseEq(x[0], y[0]);
    }
  }

  /** Names that differ only in letter case decode alike. */
  lemma ParseIgnoresCase(schema: Schema, x: string, y: string)
    requires CaseEqSeq(x, y)
    ensures ParsePortName(schema, x) == ParsePortName(schema, y)
  {
    if |x| >= 1 {
      CaseEqSlice(x, y, 1);
      match schema
      case Standalone =>
        LetterCase(x[0], y[0], 'P', 'p');
        PortGroupCase(BladeId, x[1..], y[1..]);
      case Clustered =>
        LetterCase(x[0], y[0], 'S', 's');
        BladeGroupCase(x[1..], y[1..]);
    }
  }

  /** Case-insensitive characters agree on being a given letter in either case. */
  lemma LetterCase(a: char, b: char, upper: char, lower: char)
    requires CaseEq(a, b) && 'A' <= upper <= 'Z' && lower as int == upper as int + 32
    ensures IsLetter(a, upper, lower) <==> IsLetter(b, upper, lower)
  {
  }

  lemma PortGroupCase(blade: string, x: string, y: string)
    requires CaseEqSeq(x, y)
    ensures PortGroup(blade, x) == PortGroup(blade, y)
  {
    LeadingDigitsCase(x, y);
  }

  lemma BladeGroupCase(x: string, y: string)
    requires CaseEqSeq(x, y)
    ensures BladeGroup(x) == BladeGroup(y)
  {
    LeadingDigitsCase(x, y);
    var b := LeadingDigits(x);
    CaseEqSlice(x, y, |b|);
    var rx, ry := x[|b|..], y[|b|..];
    if |rx| >= 2 {
      assert CaseEq(rx[0], ry[0]) && CaseEq(rx[1], ry[1]);
      LetterCase(rx[1], ry[1], 'P', 'p');
      CaseEqSlice(rx, ry, 2);
      PortGroupCase(StripZeros(b), rx[2..], ry[2..]);
    }
  }

  lemma CaseEqSlice(x: string, y: string, k: nat)
    requires CaseEqSeq(x, y) && k <= |x|
    ensures CaseEqSeq(x[k..], y[k..])
  {
    forall i | 0 <= i < |x| - k ensures CaseEq(x[k..][i], y[k..][i]) {
      assert x[k..][i] == x[k + i] && y[k..][i] == y[k + i];
    }
  }

  /** An address with exactly the device, blade and port segments resolves to the built name. */
  lemma FromCsPortSegments(schema: Schema, device: string, blade: string, port: string)
    requires '/' !in device && '/' !in blade && '/' !in port
    ensures FromCsPort(schema, device + "/" + blade + "/" + port) == Ok(BuildPortName(schema, blade, port))
  {
    var parts := [device, blade, port];
    JoinSplit(parts);
    assert Join(parts) == device + "/" + blade + "/" + port by {
      assert Join(parts[1..]) == blade + "/" + port;
    }
  }

  /** Worked case: letter case does not matter and leading zeros strip. */
  lemma ParseLowerCase()
    ensures ParsePortName(Standalone, "p07") == Ok(PortAddr("1", "7"))
  {
    assert "p07"[1..] == "07";
    assert LeadingDigits("07") == "07" by { LeadingDigitsStop("07", ""); assert "07" + "" == "07"; }
    assert StripZeros("07") == "7";
  }

  /** Worked case: what follows the matched prefix is ignored. */
  lemma ParseSuffixIgnored()
    ensures ParsePortName(Standalone, "P07-1") == Ok(PortAddr("1", "7"))
  {
    assert "P07-1"[1..] == "07" + "-1";
    assert LeadingDigits("07" + "-1") == "07" by { LeadingDigitsStop("07", "-1"); }
    assert StripZeros("07") == "7";
  }

  /** Worked case: an all-zero port group strips to the empty id. */
  lemma ParseAllZeros()
    ensures ParsePortName(Clustered, "S01-P000") == Ok(PortAddr("1", ""))
  {
    assert "S01-P000"[1..] == "01" + "-P" + "000";
    BladeGroupOf("01", "000");
    assert StripZeros("01") == "1";
    assert StripZeros("000") == "";
  }
}
