/**
 Hierarchical deterministic derivation paths: the text form, such as m/44'/60'/0'/0, is parsed into
 32-bit components and printed again. Components from 2^31 on are hardened, as in the "Extended keys"
 section of BIP-32 and the "Path levels" section of BIP-44.
 */
module HdPaths {
  import opened Transactions

  const HARDENED: nat := 0x8000_0000
  const MAX_UINT32: nat := 0xffff_ffff

  type Path = seq<nat>

  ghost predicate IsPath(p: Path) {
    forall i :: 0 <= i < |p| ==> p[i] <= MAX_UINT32
  }

  const DEFAULT_ROOT: Path := [HARDENED + 44, HARDENED + 60, HARDENED, 0]

  // ---------------------------------------------------------------- splitting and trimming

  /** The parts of `s` between slashes; there is always at least one. */
  function Split(s: string): (parts: seq<string>)
    ensures parts != []
  {
    if s == "" then [""]
    else
      var c, init := s[|s| - 1], Split(s[..|s| - 1]);
      if c == '/' then init + [""] else init[..|init| - 1] + [init[|init| - 1] + [c]]
  }

  /** The white space of Unicode. */
  predicate IsSpace(c: char) {
    var n := c as int;
    || 9 <= n <= 13 || n == 0x20 || n == 0x85 || n == 0xA0 || n == 0x1680 || 0x2000 <= n <= 0x200a
    || n == 0x2028 || n == 0x2029 || n == 0x202f || n == 0x205f || n == 0x3000
  }

  function TrimLeft(s: string): string {
    if s != "" && IsSpace(s[0]) then TrimLeft(s[1..]) else s
  }

  function TrimRight(s: string): string {
    if s != "" && IsSpace(s[|s| - 1]) then TrimRight(s[..|s| - 1]) else s
  }

  function Trim(s: string): string {
    TrimRight(TrimLeft(s))
  }

  // ---------------------------------------------------------------- integers

  /** The value of a digit in any base up to 36; 63 is no digit in any of them. */
  function Digit(c: char): nat {
    if '0' <= c <= '9' then c as int - '0' as int
    else if 'a' <= c <= 'z' then c as int - 'a' as int + 10
    else if 'A' <= c <= 'Z' then c as int - 'A' as int + 10
    else 63
  }

  /** The digits are the ten of the decimal system, then the letters in either case. */
  lemma DigitMeans(k: nat)
    requires k < 36
    ensures k < 10 ==> Digit(('0' as int + k) as char) == k
    ensures k >= 10 ==> Digit(('a' as int + k - 10) as char) == Digit(('A' as int + k - 10) as char) == k
  {
  }

  /** Digits of the base, where an underscore may stand between two digits, or between the base prefix and a digit. */
  predicate WellFormed(s: string, base: nat, prefixed: bool) {
    s != "" && s[|s| - 1] != '_' && forall i :: 0 <= i < |s| ==> FitsAt(s, base, prefixed, i)
  }

  predicate FitsAt(s: string, base: nat, prefixed: bool, i: nat)
    requires i < |s|
  {
    if s[i] == '_' then (if i == 0 then prefixed else s[i - 1] != '_') else Digit(s[i]) < base
  }

  /** The number the digits stand for. */
  function Value(s: string, base: nat): nat {
    if s == "" then 0
    else if s[|s| - 1] == '_' then Value(s[..|s| - 1], base)
    else Value(s[..|s| - 1], base) * base + Digit(s[|s| - 1])
  }

  /** Scans digits from left to right as the arbitrary-precision library does. */
  method ScanDigits(s: string, base: nat, prefixed: bool) returns (n: Option<nat>)
    requires base <= 36
    ensures n == if WellFormed(s, base, prefixed) then Some(Value(s, base)) else None
  {
    var z, count, badSeparator := 0, 0, false;
    var prev := if prefixed then '0' else '.';
    for i := 0 to |s|
      invariant z == Value(s[..i], base)
      invariant prev == if i == 0 then (if prefixed then '0' else '.') else if s[i - 1] == '_' then '_' else '0'
      invariant !badSeparator ==> forall j :: 0 <= j < i ==> FitsAt(s, base, prefixed, j)
      invariant badSeparator ==> exists j :: 0 <= j < i && !FitsAt(s, base, prefixed, j)
      invariant count == 0 ==> prev != '0' || i == 0
      invariant count > 0 ==> i > 0
    {
      assert s[..i + 1][..i] == s[..i];
      if s[i] == '_' {
        if prev != '0' {
          assert !FitsAt(s, base, prefixed, i);
          badSeparator := true;
        }
        prev := '_';
      } else {
        if Digit(s[i]) >= base {
          assert !FitsAt(s, base, prefixed, i);
          return None;
        }
        prev, count := '0', count + 1;
        z := z * base + Digit(s[i]);
      }
    }
    assert s[..|s|] == s;
    if badSeparator || prev == '_' || count == 0 {
      return None;
    }
    return Some(z);
  }

  function Digits(s: string, base: nat, prefixed: bool): Option<nat> {
    if WellFormed(s, base, prefixed) then Some(Value(s, base)) else None
  }

  /** The base of an unsigned literal, the length of its prefix, and whether there is one; a lone zero is decimal. */
  function Base(s: string): (r: (nat, nat, bool))
    ensures r.0 <= 16 && r.1 <= |s|
  {
    if |s| < 2 || s[0] != '0' then (10, 0, false)
    else if s[1] == 'b' || s[1] == 'B' then (2, 2, true)
    else if s[1] == 'o' || s[1] == 'O' then (8, 2, true)
    else if s[1] == 'x' || s[1] == 'X' then (16, 2, true)
    else (8, 1, true)
  }

  /** An optional sign, then an unsigned literal in the syntax of Go. */
  function Integer(s: string): Option<int> {
    var signed := s != "" && (s[0] == '-' || s[0] == '+');
    var u := if signed then s[1..] else s;
    var (base, skip, prefixed) := Base(u);
    var n := Digits(u[skip..], base, prefixed);
    if n.None? then None else Some(if signed && s[0] == '-' then 0 - n.value else n.value)
  }

  method SetString(s: string) returns (r: Option<int>)
    ensures r == Integer(s)
  {
    var signed := s != "" && (s[0] == '-' || s[0] == '+');
    var u := if signed then s[1..] else s;
    var (base, skip, prefixed) := Base(u);
    var n := ScanDigits(u[skip..], base, prefixed);
    if n.None? {
      return None;
    }
    var v: int := n.value;
    return Some(if signed && s[0] == '-' then -v else v);
  }

  predicate Signed(s: string) {
    s != "" && (s[0] == '-' || s[0] == '+')
  }

  /** A sign in front of an unsigned literal negates it or changes nothing; a second sign is refused. */
  lemma SignMeans(u: string)
    ensures !Signed(u) ==> Integer("+" + u) == Integer(u)
    ensures !Signed(u) && Integer(u).Some? ==> Integer(u).value >= 0 && Integer("-" + u) == Some(0 - Integer(u).value)
    ensures Integer(u).None? || Signed(u) ==> Integer("-" + u).None? && (Signed(u) ==> Integer("+" + u).None?)
  {
    assert ("+" + u)[1..] == u && ("-" + u)[1..] == u && u[0..] == u;
    if Signed(u) {
      assert FitsAt(u, 10, false, 0) <==> Digit(u[0]) < 10;
    }
  }

  /** The prefix gives the base: 0x sixteen, 0o or a zero alone eight, 0b two, and none ten. */
  lemma BaseMeans(d: string)
    ensures Integer("0x" + d) == Integer("0X" + d) == Digits(d, 16, true)
    ensures Integer("0o" + d) == Integer("0O" + d) == Digits(d, 8, true)
    ensures Integer("0b" + d) == Integer("0B" + d) == Digits(d, 2, true)
    ensures d != "" && d[0] !in "xXoObB" ==> Integer("0" + d) == Digits(d, 8, true)
    ensures d != "" && d[0] != '0' && !Signed(d) ==> Integer(d) == Digits(d, 10, false)
  {
    hide Digits;
    assert ("0x" + d)[2..] == ("0X" + d)[2..] == ("0o" + d)[2..] == d;
    assert ("0O" + d)[2..] == ("0b" + d)[2..] == ("0B" + d)[2..] == d;
    assert ("0" + d)[1..] == d && d[0..] == d;
  }

  // ---------------------------------------------------------------- parsing

  /** One component: hardened with a trailing quote, and within 32 bits, or 31 bits if hardened. */
  function Component(text: string): (v: Option<nat>)
    ensures v.Some? ==> v.value <= MAX_UINT32
  {
    var t := Trim(text);
    var hardened := t != "" && t[|t| - 1] == '\'';
    var offset := if hardened then HARDENED else 0;
    var n := Integer(if hardened then Trim(t[..|t| - 1]) else t);
    if n.None? || n.value < 0 || n.value > MAX_UINT32 - offset then None else Some(offset + n.value)
  }

  function Components(parts: seq<string>): (p: Option<Path>)
    ensures p.Some? ==> |p.value| == |parts| && IsPath(p.value)
  {
    if parts == [] then Some([])
    else
      var init, last := Components(parts[..|parts| - 1]), Component(parts[|parts| - 1]);
      if init.None? || last.None? then None else Some(init.value + [last.value])
  }

  /** The meaning of a path text: absolute after "m", else below the default root; empty paths are refused. */
  function Parsed(text: string): (p: Option<Path>)
    ensures p.Some? ==> p.value != [] && IsPath(p.value)
  {
    var parts := Split(text);
    var first := Trim(parts[0]);
    if first == "" then None
    else if first == "m" then
      if |parts| == 1 then None else Components(parts[1..])
    else
      var p := Components(parts);
      if p.None? then None else Some(DEFAULT_ROOT + p.value)
  }

  method ParseComponent(text: string) returns (v: Option<nat>)
    ensures v == Component(text)
  {
    var component, value := Trim(text), 0;
    if component != "" && component[|component| - 1] == '\'' {
      value := HARDENED;
      component := Trim(component[..|component| - 1]);
    }
    var bigval := SetString(component);
    if bigval.None? {
      return None;
    }
    var max := MAX_UINT32 - value;
    if bigval.value < 0 || bigval.value > max {
      return None;
    }
    return Some(value + bigval.value);
  }

  method ParseDerivationPath(text: string) returns (p: Option<Path>)
    ensures p == Parsed(text)
  {
    hide Split, Trim, Components;
    var result: Path := [];
    var components := Split(text);
    if Trim(components[0]) == "" {
      return None;
    } else if Trim(components[0]) == "m" {
      components := components[1..];
    } else {
      result := DEFAULT_ROOT;
    }
    if |components| == 0 {
      return None;
    }
    p := AppendComponents(result, components);
  }

  method AppendComponents(root: Path, components: seq<string>) returns (p: Option<Path>)
    ensures p == if Components(components).None? then None else Some(root + Components(components).value)
    ensures root == [] ==> p == Components(components)
  {
    hide Component;
    var result := root;
    for i := 0 to |components|
      invariant Components(components[..i]).Some? && result == root + Components(components[..i]).value
    {
      assert components[..i + 1][..i] == components[..i];
      var value := ParseComponent(components[i]);
      if value.None? {
        Fails(components, i + 1);
        return None;
      }
      result := result + [value.value];
    }
    assert components[..|components|] == components;
    assert root == [] ==> result == Components(components).value;
    return Some(result);
  }

  /** A component that fails makes the whole path fail. */
  lemma {:induction false} Fails(parts: seq<string>, i: nat)
    requires i <= |parts| && Components(parts[..i]).None?
    ensures Components(parts).None?
    decreases |parts| - i
  {
    if i == |parts| {
      assert parts[..i] == parts;
    } else {
      assert parts[..i + 1][..i] == parts[..i];
      Fails(parts, i + 1);
    }
  }

  // ---------------------------------------------------------------- printing

  function Decimal(n: nat): (s: string)
    ensures s != ""
  {
    if n < 10 then [('0' as int + n) as char] else Decimal(n / 10) + [('0' as int + n % 10) as char]
  }

  function PrintedComponent(v: nat): string {
    if v >= HARDENED then Decimal(v - HARDENED) + "'" else Decimal(v)
  }

  function Printed(p: Path): string {
    if p == [] then "m" else Printed(p[..|p| - 1]) + "/" + PrintedComponent(p[|p| - 1])
  }

  method String(p: Path) returns (s: string)
    ensures s == Printed(p)
  {
    s := "m";
    for i := 0 to |p|
      invariant s == Printed(p[..i])
    {
      assert p[..i + 1][..i] == p[..i];
      var component, hardened := p[i], false;
      if component >= HARDENED {
        component, hardened := component - HARDENED, true;
      }
      ghost var before := s;
      s := s + "/" + Decimal(component);
      if hardened {
        s := s + "'";
      }
      assert s == before + "/" + PrintedComponent(p[i]);
    }
    assert p[..|p|] == p;
  }

  // ---------------------------------------------------------------- round trips

  predicate IsDigit(c: char) {
    '0' <= c <= '9'
  }

  /** A printed number is made of digits, without a leading zero unless it is zero, and has the right value. */
  lemma {:induction false} DecimalDigits(n: nat)
    ensures forall i :: 0 <= i < |Decimal(n)| ==> IsDigit(Decimal(n)[i])
    ensures Value(Decimal(n), 10) == n && (Decimal(n)[0] == '0' ==> Decimal(n) == "0")
  {
    var s := Decimal(n);
    if n < 10 {
      assert s[..0] == "";
    } else {
      DecimalDigits(n / 10);
      assert s[..|s| - 1] == Decimal(n / 10);
      assert Decimal(n / 10)[0] != '0';
    }
  }

  lemma DecimalParses(n: nat)
    ensures Integer(Decimal(n)) == Some(n)
  {
    var s := Decimal(n);
    DecimalDigits(n);
    assert IsDigit(s[0]) && IsDigit(s[|s| - 1]);
    assert Base(s) == (10, 0, false);
    assert s[0..] == s;
    assert forall i :: 0 <= i < |s| ==> FitsAt(s, 10, false, i);
  }

  lemma Trimmed(s: string)
    requires s != "" && !IsSpace(s[0]) && !IsSpace(s[|s| - 1])
    ensures Trim(s) == s
  {
  }

  lemma ComponentParses(v: nat)
    requires v <= MAX_UINT32
    ensures Component(PrintedComponent(v)) == Some(v) && '/' !in PrintedComponent(v)
    ensures PrintedComponent(v) == if v < 0x8000_0000 then Decimal(v) else Decimal(v - 0x8000_0000) + "'"
  {
    hide Integer, Decimal, Trim;
    var n := if v >= HARDENED then v - HARDENED else v;
    var s, d := PrintedComponent(v), Decimal(n);
    DecimalDigits(n);
    DecimalParses(n);
    assert IsDigit(d[0]) && IsDigit(d[|d| - 1]);
    Trimmed(d);
    Trimmed(s);
    if v >= HARDENED {
      assert s[..|s| - 1] == d;
    }
  }

  /** Appending a part without slashes appends it to the split. */
  lemma {:induction false} SplitAppend(s: string, part: string)
    requires '/' !in part
    ensures Split(s + "/" + part) == Split(s) + [part]
  {
    var whole := s + "/" + part;
    if part == "" {
      assert whole[..|whole| - 1] == s;
    } else {
      var init := part[..|part| - 1];
      assert whole[..|whole| - 1] == s + "/" + init;
      SplitAppend(s, init);
      assert init + [part[|part| - 1]] == part;
    }
  }

  lemma OnlyRoot()
    ensures Split("m") == ["m"]
  {
    assert "m"[..0] == "" && Split("") == [""];
    assert "" + ['m'] == "m";
  }

  lemma {:induction false} PrintedSplits(p: Path)
    requires IsPath(p)
    ensures |Split(Printed(p))| == |p| + 1 && Split(Printed(p))[0] == "m"
    ensures Components(Split(Printed(p))[1..]) == Some(p)
  {
    hide Component, PrintedComponent, Split;
    var parts := Split(Printed(p));
    if p == [] {
      OnlyRoot();
    } else {
      var init, last := p[..|p| - 1], p[|p| - 1];
      PrintedSplits(init);
      ComponentParses(last);
      SplitAppend(Printed(init), PrintedComponent(last));
      assert parts[1..][..|p| - 1] == Split(Printed(init))[1..];
      assert init + [last] == p;
    }
  }

  /** Printing a path and parsing the text gives the path back. */
  lemma PrintThenParse(p: Path)
    requires IsPath(p) && p != []
    ensures Parsed(Printed(p)) == Some(p)
  {
    PrintedSplits(p);
    Trimmed("m");
  }

  /** Whatever text a path was parsed from, its printed form parses to the same path. */
  lemma ParseThenPrint(text: string)
    requires Parsed(text).Some?
    ensures Parsed(Printed(Parsed(text).value)) == Parsed(text)
  {
    PrintThenParse(Parsed(text).value);
  }

  /** The empty path prints as "m", which is refused. */
  lemma EmptyPathRefused()
    ensures Parsed(Printed([])).None?
  {
    PrintedSplits([]);
    Trimmed("m");
  }

  // ---------------------------------------------------------------- relative paths

  /** One more character extends the last part, or starts a new one. */
  lemma SplitMore(s: string, c: char)
    ensures var parts := Split(s);
            Split(s + [c]) == if c == '/' then parts + [""]
                              else parts[..|parts| - 1] + [parts[|parts| - 1] + [c]]
  {
    assert (s + [c])[..|s|] == s;
  }

  /** Text joined by a slash splits into the parts of both. */
  lemma {:induction false} SplitJoin(a: string, b: string)
    ensures Split(a + "/" + b) == Split(a) + Split(b)
  {
    hide Split;
    if b == "" {
      SplitMore(a, '/');
      assert a + "/" + b == a + "/" && Split("") == [""] by {
        OnlyEmpty();
      }
    } else {
      var init, c := b[..|b| - 1], b[|b| - 1];
      assert init + [c] == b && a + "/" + b == (a + "/" + init) + [c];
      SplitJoin(a, init);
      SplitMore(a + "/" + init, c);
      SplitMore(init, c);
      LastOfJoin(Split(a), Split(init));
    }
  }

  lemma OnlyEmpty()
    ensures Split("") == [""]
  {
  }

  lemma LastOfJoin(a: seq<string>, b: seq<string>)
    requires b != []
    ensures (a + b)[..|a + b| - 1] == a + b[..|b| - 1] && (a + b)[|a + b| - 1] == b[|b| - 1]
  {
  }

  lemma {:induction false} ComponentsJoin(a: seq<string>, b: seq<string>)
    requires Components(a).Some?
    ensures Components(a + b).Some? <==> Components(b).Some?
    ensures Components(b).Some? ==> Components(a + b).value == Components(a).value + Components(b).value
  {
    hide Component;
    if b == [] {
      assert a + b == a;
    } else {
      assert (a + b)[..|a + b| - 1] == a + b[..|b| - 1];
      ComponentsJoin(a, b[..|b| - 1]);
    }
  }

  lemma RootPrinted()
    ensures Printed(DEFAULT_ROOT) == "m/44'/60'/0'/0" && IsPath(DEFAULT_ROOT)
  {
    var p := DEFAULT_ROOT;
    assert Decimal(44) == "44" && Decimal(60) == "60" && Decimal(0) == "0";
    assert p[..3][..2] == p[..2] && p[..2][..1] == p[..1];
    assert Printed(p[..1]) == "m/44'";
    assert Printed(p[..2]) == "m/44'/60'";
    assert Printed(p[..3]) == "m/44'/60'/0'";
  }

  /** A text that starts with neither an empty part nor "m" is read as if it stood below m/44'/60'/0'/0. */
  lemma RelativeMeans(text: string)
    requires Trim(Split(text)[0]) != "" && Trim(Split(text)[0]) != "m"
    ensures Parsed(text) == Parsed("m/44'/60'/0'/0" + "/" + text)
  {
    hide Split, Components, Printed, Trim;
    var root := Printed(DEFAULT_ROOT);
    RootPrinted();
    PrintedSplits(DEFAULT_ROOT);
    SplitJoin(root, text);
    ComponentsJoin(Split(root)[1..], Split(text));
    assert Split(root + "/" + text)[1..] == Split(root)[1..] + Split(text);
    assert Trim("m") == "m" by {
      Trimmed("m");
    }
  }
}
