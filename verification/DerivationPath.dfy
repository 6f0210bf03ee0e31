/** Hierarchical derivation paths: `ParseDerivationPath` and `DerivationPath.String`. */
module DerivationPath {
  import opened Basics

  type Component = c: nat | c < 0x1_0000_0000

  type Path = seq<Component>

  const HARDENED: Component := 0x8000_0000

  const ROOT: Path := [0x8000_0000 + 44, 0x8000_0000 + 60, 0x8000_0000 + 0, 0]

  datatype Error = EmptyPath | AmbiguousPath | InvalidComponent | OutOfRange

  datatype Result<T> = Ok(value: T) | Err(error: Error)

  // ---------------------------------------------------------------- Go's strings package

  predicate IsSpace(c: char) {
    || '\t' <= c <= '\r' || c == ' ' || c == '\U{85}' || c == '\U{A0}' || c == '\U{1680}'
    || '\U{2000}' <= c <= '\U{200A}' || c == '\U{2028}' || c == '\U{2029}' || c == '\U{202F}' || c == '\U{205F}'
    || c == '\U{3000}'
  }

  function TrimLeft(s: string): string {
    if s != [] && IsSpace(s[0]) then TrimLeft(s[1..]) else s
  }

  function TrimRight(s: string): string {
    if s != [] && IsSpace(s[|s| - 1]) then TrimRight(s[..|s| - 1]) else s
  }

  function TrimSpace(s: string): string {
    TrimRight(TrimLeft(s))
  }

  /** `strings.Split(s, "/")` */
  function Split(s: string): (parts: seq<string>)
    ensures |parts| > 0
  {
    if s == [] then [""]
    else
      var parts := Split(s[..|s| - 1]);
      var n := |parts| - 1;
      if s[|s| - 1] == '/' then parts + [""] else parts[n := parts[n] + [s[|s| - 1]]]
  }

  // ---------------------------------------------------------------- big.Int.SetString(s, 0)

  function DigitValue(c: char): nat {
    if '0' <= c <= '9' then c as int - '0' as int
    else if 'a' <= c <= 'z' then c as int - 'a' as int + 10
    else if 'A' <= c <= 'Z' then c as int - 'A' as int + 10
    else 255
  }

  /** What came before: a digit or a base prefix, a separator, or nothing. */
  datatype Previous = Start | Digit | Separator

  /** Digits of the base up to the end of the string, with separators only after digits. */
  function Scan(s: string, base: nat, prev: Previous, count: nat, acc: nat): Option<nat> {
    if s == [] then (if prev.Separator? || count == 0 then None else Some(acc))
    else if s[0] == '_' then (if prev.Digit? then Scan(s[1..], base, Separator, count, acc) else None)
    else
      var d := DigitValue(s[0]);
      if d >= base then None else Scan(s[1..], base, Digit, count + 1, acc * base + d)
  }

  /** The base is 10, or what the prefix says; a leading zero alone means 8. */
  function ScanNat(s: string): Option<nat> {
    if |s| == 0 || s[0] != '0' then Scan(s, 10, Start, 0, 0)
    else if |s| == 1 then Some(0)
    else if s[1] == 'b' || s[1] == 'B' then Scan(s[2..], 2, Digit, 0, 0)
    else if s[1] == 'o' || s[1] == 'O' then Scan(s[2..], 8, Digit, 0, 0)
    else if s[1] == 'x' || s[1] == 'X' then Scan(s[2..], 16, Digit, 0, 0)
    else Scan(s[1..], 8, Digit, 0, 0)
  }

  function SetString(s: string): Option<int> {
    if s == [] then None
    else
      var digits := if s[0] == '-' || s[0] == '+' then s[1..] else s;
      match ScanNat(digits)
      case None => None
      case Some(n) => var v: int := n; Some(if s[0] == '-' then -v else v)
  }

  // ---------------------------------------------------------------- printing

  /** `%d` */
  function Decimal(n: nat): (s: string)
    ensures s != []
  {
    if n < 10 then ['0' + n as char] else Decimal(n / 10) + ['0' + (n % 10) as char]
  }

  function PrintComponent(c: Component): string {
    if c >= HARDENED then Decimal(c - HARDENED) + "'" else Decimal(c)
  }

  function Print(p: Path): string {
    if p == [] then "m" else Print(p[..|p| - 1]) + "/" + PrintComponent(p[|p| - 1])
  }

  method String(p: Path) returns (result: string)
    ensures result == Print(p)
  {
    result := "m";
    for i := 0 to |p|
      invariant result == Print(p[..i])
    {
      var component: nat := p[i];
      var hardened := false;
      if component >= 0x8000_0000 {
        component := component - 0x8000_0000;
        hardened := true;
      }
      result := result + "/" + Decimal(component);
      if hardened {
        result := result + "'";
      }
      assert p[..i + 1][..i] == p[..i];
      assert p[i] >= HARDENED ==>
          Print(p[..i]) + "/" + Decimal(component) + "'" == Print(p[..i]) + "/" + (Decimal(component) + "'");
    }
    assert p[..|p|] == p;
  }

  // ---------------------------------------------------------------- parsing

  function ParseComponent(s: string): Result<Component> {
    ParseTrimmed(TrimSpace(s))
  }

  function ParseTrimmed(t: string): Result<Component> {
    if t != [] && t[|t| - 1] == '\'' then Ranged(SetString(TrimSpace(t[..|t| - 1])), HARDENED)
    else Ranged(SetString(t), 0)
  }

  function Ranged(v: Option<int>, value: Component): Result<Component> {
    match v
    case None => Err(InvalidComponent)
    case Some(n) => if n < 0 || n > 0xFFFF_FFFF - value then Err(OutOfRange) else Ok(value + n)
  }

  /** Components one by one, behind those there are. */
  function ParseAll(parts: seq<string>, before: Path): Result<Path> {
    if parts == [] then Ok(before)
    else AddTo(ParseAll(parts[..|parts| - 1], before), ParseComponent(parts[|parts| - 1]))
  }

  function Parse(path: string): Result<Path> {
    ParseParts(Split(path))
  }

  function ParseParts(parts: seq<string>): Result<Path>
    requires |parts| > 0
  {
    var first := TrimSpace(parts[0]);
    if first == "" then Err(AmbiguousPath)
    else if first == "m" then (if |parts| == 1 then Err(EmptyPath) else ParseAll(parts[1..], []))
    else ParseAll(parts, ROOT)
  }

  /** One round of the loop */
  method ParseOne(s: string) returns (r: Result<Component>)
    ensures r == ParseComponent(s)
  {
    var component := TrimSpace(s);
    var value: nat := 0;
    if |component| > 0 && component[|component| - 1] == '\'' {
      value := 0x8000_0000;
      component := TrimSpace(component[..|component| - 1]);
    }
    var bigval := SetString(component);
    if bigval.None? {
      return Err(InvalidComponent);
    }
    var max := 0xFFFF_FFFF - value;
    if bigval.value < 0 || bigval.value > max {
      return Err(OutOfRange);
    }
    r := Ok(value + bigval.value);
  }

  method ParseDerivationPath(path: string) returns (r: Result<Path>)
    ensures r == Parse(path)
  {
    var components := Split(path);
    var result: Path := [];
    if TrimSpace(components[0]) == "" {
      return Err(AmbiguousPath);
    } else if TrimSpace(components[0]) == "m" {
      components := components[1..];
    } else {
      result := ROOT;
    }
    if |components| == 0 {
      return Err(EmptyPath);
    }
    r := ParseRest(components, result);
  }

  /** What one more component does. */
  function AddTo(rest: Result<Path>, c: Result<Component>): Result<Path> {
    if rest.Err? then rest else if c.Err? then Err(c.error) else Ok(rest.value + [c.value])
  }

  lemma ParseAllMore(parts: seq<string>, before: Path, i: nat)
    requires i < |parts|
    ensures ParseAll(parts[..i + 1], before) == AddTo(ParseAll(parts[..i], before), ParseComponent(parts[i]))
  {
    assert parts[..i + 1][..i] == parts[..i];
  }

  /** The loop */
  method ParseRest(components: seq<string>, before: Path) returns (r: Result<Path>)
    ensures r == ParseAll(components, before)
  {
    var result := before;
    for i := 0 to |components|
      invariant ParseAll(components[..i], before) == Ok(result)
    {
      ParseAllMore(components, before, i);
      var value := ParseOne(components[i]);
      if value.Err? {
        ErrorStays(components, before, i + 1);
        return Err(value.error);
      }
      result := result + [value.value];
    }
    assert components[..|components|] == components;
    r := Ok(result);
  }

  /** The first error is the result. */
  lemma {:induction false} ErrorStays(parts: seq<string>, before: Path, i: nat)
    requires i <= |parts| && ParseAll(parts[..i], before).Err?
    ensures ParseAll(parts, before) == ParseAll(parts[..i], before)
    decreases |parts|
  {
    if i < |parts| {
      assert parts[..|parts| - 1][..i] == parts[..i];
      ErrorStays(parts[..|parts| - 1], before, i);
    } else {
      assert parts[..i] == parts;
    }
  }

  // ---------------------------------------------------------------- numbers round trip

  /** Positional notation: the last digit counts once, the others the base times as much. */
  function Value(s: string, base: nat): nat {
    if s == [] then 0 else Value(s[..|s| - 1], base) * base + DigitValue(s[|s| - 1])
  }

  lemma ValueMore(s: string, c: char, base: nat)
    ensures Value(s + [c], base) == Value(s, base) * base + DigitValue(c)
  {
    assert (s + [c])[..|s|] == s;
  }

  /** Decimal notation: only digits, no leading zero, and the value it stands for. */
  lemma {:induction false} DecimalValue(n: nat)
    ensures AllPlain(Decimal(n)) && Value(Decimal(n), 10) == n && (n > 0 ==> Decimal(n)[0] != '0')
    decreases n
  {
    if n < 10 {
      assert Decimal(n)[..0] == [];
    } else {
      DecimalValue(n / 10);
      ValueMore(Decimal(n / 10), '0' + (n % 10) as char, 10);
    }
  }

  ghost predicate AllPlain(s: string) {
    forall i :: 0 <= i < |s| ==> '0' <= s[i] <= '9'
  }

  /** The digits of a numeral. */
  function Digits(s: string): string {
    if s == [] then [] else (if s[0] == '_' then [] else [s[0]]) + Digits(s[1..])
  }

  /** Digits of the base, at least one, with single separators behind a digit or, if `lead`, behind the prefix; none at
      the end. */
  ghost predicate Numeral(s: string, base: nat, lead: bool) {
    Digits(s) != [] && Symbols(s, base, lead)
  }

  ghost predicate Symbols(s: string, base: nat, lead: bool) {
    forall i :: 0 <= i < |s| ==> SymbolAt(s, base, lead, i)
  }

  predicate SymbolAt(s: string, base: nat, lead: bool, i: nat)
    requires i < |s|
  {
    if s[i] == '_' then (if i == 0 then lead else s[i - 1] != '_') && i < |s| - 1 else DigitValue(s[i]) < base
  }

  /** What is still to be read, if digits have been read before. */
  ghost predicate Rest(s: string, base: nat, prev: Previous) {
    (s == [] ==> !prev.Separator?) && Symbols(s, base, prev.Digit?)
  }

  lemma RestFront(s: string, base: nat, prev: Previous)
    requires s != [] && base <= 36
    ensures Rest(s, base, prev) <==>
      if s[0] == '_' then prev.Digit? && Rest(s[1..], base, Separator)
      else DigitValue(s[0]) < base && Rest(s[1..], base, Digit)
  {
    var t := s[1..];
    var next := if s[0] == '_' then Separator else Digit;
    forall i | 1 <= i < |s| ensures SymbolAt(s, base, prev.Digit?, i) <==> SymbolAt(t, base, next.Digit?, i - 1) {
    }
    if Rest(s, base, prev) {
      assert SymbolAt(s, base, prev.Digit?, 0);
      forall i | 0 <= i < |t| ensures SymbolAt(t, base, next.Digit?, i) {
        assert SymbolAt(s, base, prev.Digit?, i + 1);
      }
    } else if Rest(t, base, next) {
      forall i | 1 <= i < |s| ensures SymbolAt(s, base, prev.Digit?, i) {
        assert SymbolAt(t, base, next.Digit?, i - 1);
      }
    }
  }

  /** What the digits done and those to come are worth, if all is well to the end. */
  ghost function Reading(done: string, s: string, base: nat, prev: Previous): Option<nat> {
    if Rest(s, base, prev) && done + Digits(s) != [] then Some(Value(done + Digits(s), base)) else None
  }

  lemma ReadingFront(done: string, s: string, base: nat, prev: Previous)
    requires s != [] && base <= 36
    ensures s[0] == '_' ==>
              Reading(done, s, base, prev) == if prev.Digit? then Reading(done, s[1..], base, Separator) else None
    ensures s[0] != '_' ==>
              Reading(done, s, base, prev) ==
              (if DigitValue(s[0]) < base then Reading(done + [s[0]], s[1..], base, Digit) else None)
  {
    RestFront(s, base, prev);
    assert s[0] == '_' ==> Digits(s) == Digits(s[1..]);
    assert s[0] != '_' ==> done + [s[0]] + Digits(s[1..]) == done + Digits(s);
  }

  lemma {:induction false} ScanIs(done: string, s: string, base: nat, prev: Previous)
    requires base <= 36
    ensures Scan(s, base, prev, |done|, Value(done, base)) == Reading(done, s, base, prev)
    decreases |s|
  {
    if s == [] {
      assert done + Digits(s) == done;
    } else {
      ReadingFront(done, s, base, prev);
      if s[0] == '_' {
        ScanIs(done, s[1..], base, Separator);
      } else {
        ValueMore(done, s[0], base);
        ScanIs(done + [s[0]], s[1..], base, Digit);
      }
    }
  }

  /** What a numeral of the base is worth, if the text is one. */
  ghost function Worth(s: string, base: nat, lead: bool): Option<int> {
    if Numeral(s, base, lead) then var v: int := Value(Digits(s), base); Some(v) else None
  }

  lemma ScanExactly(s: string, base: nat, lead: bool)
    requires base <= 36
    ensures Scan(s, base, if lead then Digit else Start, 0, 0).None? <==> !Numeral(s, base, lead)
    ensures Numeral(s, base, lead) ==>
              Scan(s, base, if lead then Digit else Start, 0, 0) == Some(Value(Digits(s), base))
  {
    var prev := if lead then Digit else Start;
    ScanIs([], s, base, prev);
    assert [] + Digits(s) == Digits(s);
    assert prev.Digit? == lead;
  }

  lemma {:induction false} PlainDigits(s: string)
    requires AllPlain(s) && s != []
    ensures Digits(s) == s && Numeral(s, 10, false)
    decreases |s|
  {
    if |s| > 1 { PlainDigits(s[1..]); }
    assert s == [s[0]] + s[1..];
  }

  lemma SetStringDecimal(n: nat)
    ensures SetString(Decimal(n)) == Some(n)
  {
    DecimalValue(n);
    var s := Decimal(n);
    assert '0' <= s[0] <= '9';
    if n > 0 {
      PlainDigits(s);
      SetStringPlain(s);
    }
  }

  /** Numbers without a leading zero are decimal, with separators between digits allowed ... */
  lemma SetStringPlain(s: string)
    requires s != [] && s[0] != '0' && s[0] != '-' && s[0] != '+'
    ensures SetString(s) == Worth(s, 10, false)
  {
    ScanExactly(s, 10, false);
  }

  /** The base that a prefix letter stands for. */
  function PrefixBase(c: char): nat {
    if c == 'x' || c == 'X' then 16 else if c == 'o' || c == 'O' then 8 else if c == 'b' || c == 'B' then 2 else 0
  }

  /** ... a prefix of either case chooses the base ... */
  lemma SetStringPrefixed(c: char, s: string)
    requires PrefixBase(c) > 0
    ensures SetString(['0', c] + s) == Worth(s, PrefixBase(c), true)
  {
    ScanExactly(s, PrefixBase(c), true);
    assert (['0', c] + s)[2..] == s;
  }

  /** ... and a leading zero alone means octal. */
  lemma SetStringOctal(s: string)
    requires s != [] && PrefixBase(s[0]) == 0
    ensures SetString(['0'] + s) == Worth(s, 8, true)
  {
    ScanExactly(s, 8, true);
    assert (['0'] + s)[1..] == s;
  }

  /** A sign in front negates, or does nothing. */
  lemma SetStringSigned(s: string)
    requires SetString(s).Some? && s[0] != '-' && s[0] != '+'
    ensures SetString("-" + s) == Some(-SetString(s).value) && SetString("+" + s) == SetString(s)
  {
    assert ("-" + s)[1..] == s && ("+" + s)[1..] == s;
  }

  lemma TrimNoop(s: string)
    requires s != [] && !IsSpace(s[0]) && !IsSpace(s[|s| - 1])
    ensures TrimSpace(s) == s
  {
  }

  lemma DecimalTrim(n: nat)
    ensures TrimSpace(Decimal(n)) == Decimal(n) && TrimSpace(Decimal(n) + "'") == Decimal(n) + "'"
    ensures Decimal(n)[|Decimal(n)| - 1] != '\'' && '/' !in Decimal(n)
  {
    DecimalValue(n);
    var s := Decimal(n);
    assert '0' <= s[0] <= '9' && '0' <= s[|s| - 1] <= '9';
    TrimNoop(s);
    TrimNoop(s + "'");
  }

  /** Which numbers are accepted, plain and hardened. */
  lemma ComponentRange(n: nat)
    ensures ParseComponent(Decimal(n)) == if n <= 0xFFFF_FFFF then Ok(n) else Err(OutOfRange)
    ensures ParseComponent(Decimal(n) + "'") == if n <= 0x7FFF_FFFF then Ok(HARDENED + n) else Err(OutOfRange)
  {
    DecimalTrim(n);
    SetStringDecimal(n);
    var t := Decimal(n) + "'";
    assert t[|t| - 1] == '\'' && t[..|t| - 1] == Decimal(n);
  }

  lemma NegativeRejected(n: nat)
    requires n > 0
    ensures ParseComponent("-" + Decimal(n)) == Err(OutOfRange)
  {
    NegativeTrim(n);
    SetStringDecimal(n);
    SetStringSigned(Decimal(n));
  }

  lemma NegativeTrim(n: nat)
    ensures var t := "-" + Decimal(n); TrimSpace(t) == t && t[|t| - 1] != '\''
    ensures '0' <= Decimal(n)[0] <= '9'
  {
    DecimalValue(n);
    var s := Decimal(n);
    assert '0' <= s[0] <= '9' && '0' <= s[|s| - 1] <= '9';
    TrimNoop("-" + s);
  }

  /** A printed component parses back. */
  lemma ComponentRoundTrip(c: Component)
    ensures ParseComponent(PrintComponent(c)) == Ok(c) && '/' !in PrintComponent(c)
  {
    var n := if c >= HARDENED then c - HARDENED else c;
    ComponentRange(n);
    DecimalTrim(n);
  }

  // ---------------------------------------------------------------- splitting

  /** The parts, with one more character behind the last. */
  function Behind(parts: seq<string>, c: char): seq<string>
    requires |parts| > 0
  {
    if c == '/' then parts + [""] else parts[|parts| - 1 := parts[|parts| - 1] + [c]]
  }

  lemma SplitMore(s: string, c: char)
    ensures Split(s + [c]) == Behind(Split(s), c)
  {
    assert (s + [c])[..|s|] == s;
  }

  lemma BehindConcat(x: seq<string>, y: seq<string>, c: char)
    requires |y| > 0
    ensures Behind(x + y, c) == x + Behind(y, c)
  {
  }

  lemma {:induction false} SplitConcat(a: string, b: string)
    ensures Split(a + "/" + b) == Split(a) + Split(b)
    decreases |b|
  {
    if b == [] {
      assert a + "/" + b == a + ['/'];
      SplitMore(a, '/');
    } else {
      var t, c := b[..|b| - 1], b[|b| - 1];
      SplitConcat(a, t);
      assert a + "/" + b == (a + "/" + t) + [c] && b == t + [c];
      SplitMore(a + "/" + t, c);
      SplitMore(t, c);
      BehindConcat(Split(a), Split(t), c);
    }
  }

  lemma {:induction false} SplitWhole(s: string)
    requires '/' !in s
    ensures Split(s) == [s]
    decreases |s|
  {
    if s != [] {
      SplitWhole(s[..|s| - 1]);
      assert s[..|s| - 1] + [s[|s| - 1]] == s;
    }
  }

  function Pieces(p: Path): seq<string> {
    if p == [] then [] else Pieces(p[..|p| - 1]) + [PrintComponent(p[|p| - 1])]
  }

  lemma {:induction false} SplitPrint(p: Path)
    ensures Split(Print(p)) == ["m"] + Pieces(p)
    decreases |p|
  {
    if p == [] {
      SplitWhole("m");
    } else {
      var c := PrintComponent(p[|p| - 1]);
      SplitPrint(p[..|p| - 1]);
      SplitConcat(Print(p[..|p| - 1]), c);
      ComponentRoundTrip(p[|p| - 1]);
      SplitWhole(c);
    }
  }

  // ---------------------------------------------------------------- paths round trip

  lemma ParseAllSnoc(parts: seq<string>, c: string, before: Path)
    ensures ParseAll(parts + [c], before) == AddTo(ParseAll(parts, before), ParseComponent(c))
  {
    assert (parts + [c])[..|parts|] == parts;
  }

  lemma LastBack(p: Path)
    requires p != []
    ensures p[..|p| - 1] + [p[|p| - 1]] == p
  {
  }

  lemma AbsoluteParts(rest: seq<string>)
    ensures ParseParts(["m"] + rest) == if rest == [] then Err(EmptyPath) else ParseAll(rest, [])
  {
    var parts := ["m"] + rest;
    assert parts[1..] == rest;
    assert TrimSpace("m") == "m";
  }

  lemma {:induction false} PiecesParse(p: Path)
    ensures ParseAll(Pieces(p), []) == Ok(p) && |Pieces(p)| == |p|
    decreases |p|
  {
    if p != [] {
      var q, c := p[..|p| - 1], p[|p| - 1];
      PiecesParse(q);
      ComponentRoundTrip(c);
      ParseAllSnoc(Pieces(q), PrintComponent(c), []);
      LastBack(p);
    }
  }

  /** Parsing a printed path gives the path back; only the empty path has no notation. */
  lemma {:induction false} RoundTrip(p: Path)
    ensures Parse(Print(p)) == if p == [] then Err(EmptyPath) else Ok(p)
  {
    SplitPrint(p);
    PiecesParse(p);
    AbsoluteParts(Pieces(p));
  }

  lemma PrintInjective(p: Path, q: Path)
    requires Print(p) == Print(q)
    ensures p == q
  {
    RoundTrip(p);
    RoundTrip(q);
  }

  lemma {:induction false} ParseAllLength(parts: seq<string>, before: Path)
    ensures ParseAll(parts, before).Ok? ==> |ParseAll(parts, before).value| == |before| + |parts|
    decreases |parts|
  {
    if parts != [] { ParseAllLength(parts[..|parts| - 1], before); }
  }

  /** Printing what was parsed, and parsing that, changes nothing. */
  lemma ParsePrintParse(s: string)
    requires Parse(s).Ok?
    ensures Parse(Print(Parse(s).value)) == Parse(s)
  {
    var parts := Split(s);
    ParseAllLength(parts[1..], []);
    ParseAllLength(parts, ROOT);
    RoundTrip(Parse(s).value);
  }

  lemma {:induction false} ParseAllConcat(x: seq<string>, y: seq<string>, before: Path, middle: Path)
    requires ParseAll(x, before) == Ok(middle)
    ensures ParseAll(x + y, before) == ParseAll(y, middle)
    decreases |y|
  {
    if y == [] {
      assert x + y == x;
    } else {
      assert (x + y)[..|x + y| - 1] == x + y[..|y| - 1];
      ParseAllConcat(x, y[..|y| - 1], before, middle);
    }
  }

  lemma SplitBehind(p: Path, s: string)
    ensures Split(Print(p) + "/" + s) == ["m"] + (Pieces(p) + Split(s))
  {
    SplitConcat(Print(p), s);
    SplitPrint(p);
  }

  /** Text behind a printed path adds its components to the path. */
  lemma ParseBehind(p: Path, s: string)
    ensures Parse(Print(p) + "/" + s) == ParseAll(Split(s), p)
  {
    SplitBehind(p, s);
    AbsoluteParts(Pieces(p) + Split(s));
    PiecesParse(p);
    ParseAllConcat(Pieces(p), Split(s), [], p);
  }

  /** A relative path means the same as the absolute one behind the default root. */
  lemma {:induction false} RelativeIsAppended(s: string)
    requires TrimSpace(Split(s)[0]) != "" && TrimSpace(Split(s)[0]) != "m"
    ensures Parse(Print(ROOT) + "/" + s) == Parse(s)
  {
    ParseBehind(ROOT, s);
  }

  // ---------------------------------------------------------------- the kinds of errors

  ghost predicate AllSpace(s: string) {
    forall i :: 0 <= i < |s| ==> IsSpace(s[i])
  }

  /** The text before the first slash. */
  function Head(s: string): string {
    if s == [] || s[0] == '/' then [] else [s[0]] + Head(s[1..])
  }

  lemma {:induction false} HeadMore(s: string, c: char)
    ensures Head(s + [c]) == if '/' in s || c == '/' then Head(s) else s + [c]
    ensures '/' !in s ==> Head(s) == s
    decreases |s|
  {
    if s != [] {
      assert (s + [c])[1..] == s[1..] + [c] && s == [s[0]] + s[1..];
      HeadMore(s[1..], c);
    }
  }

  lemma {:induction false} SplitHead(s: string)
    ensures Split(s)[0] == Head(s) && (|Split(s)| == 1 <==> '/' !in s)
    decreases |s|
  {
    if s != [] {
      var t, c := s[..|s| - 1], s[|s| - 1];
      assert s == t + [c];
      SplitHead(t);
      HeadMore(t, c);
    }
  }

  lemma {:induction false} TrimRightKeeps(s: string)
    requires s != [] && !IsSpace(s[0])
    ensures TrimRight(s) != []
    decreases |s|
  {
    if IsSpace(s[|s| - 1]) { TrimRightKeeps(s[..|s| - 1]); }
  }

  lemma {:induction false} TrimmedAway(s: string)
    ensures TrimSpace(s) == [] <==> AllSpace(s)
    decreases |s|
  {
    if s != [] && IsSpace(s[0]) {
      TrimmedAway(s[1..]);
      assert s == [s[0]] + s[1..];
    } else if s != [] {
      TrimRightKeeps(s);
    }
  }

  lemma {:induction false} NumberErrors(parts: seq<string>, before: Path)
    ensures var r := ParseAll(parts, before); r.Err? ==> r.error == InvalidComponent || r.error == OutOfRange
    decreases |parts|
  {
    if parts != [] { NumberErrors(parts[..|parts| - 1], before); }
  }

  /** A path is ambiguous exactly if nothing but white space precedes its first slash, or its end.  It is empty exactly
      if it is the letter m, white space aside. */
  lemma ErrorsExactly(s: string)
    ensures Parse(s) == Err(AmbiguousPath) <==> AllSpace(Head(s))
    ensures Parse(s) == Err(EmptyPath) <==> TrimSpace(Head(s)) == "m" && '/' !in s
  {
    var parts := Split(s);
    SplitHead(s);
    TrimmedAway(Head(s));
    NumberErrors(parts, ROOT);
    NumberErrors(parts[1..], []);
  }

  // ---------------------------------------------------------------- white space

  lemma {:induction false} TrimLeftSpace(a: string, s: string)
    requires AllSpace(a)
    ensures TrimLeft(a + s) == TrimLeft(s)
    decreases |a|
  {
    if a == [] {
      assert a + s == s;
    } else {
      assert (a + s)[1..] == a[1..] + s;
      TrimLeftSpace(a[1..], s);
    }
  }

  lemma {:induction false} TrimRightSpace(s: string, b: string)
    requires AllSpace(b)
    ensures TrimRight(s + b) == TrimRight(s)
    decreases |b|
  {
    if b == [] {
      assert s + b == s;
    } else {
      assert (s + b)[..|s + b| - 1] == s + b[..|b| - 1];
      TrimRightSpace(s, b[..|b| - 1]);
    }
  }

  lemma {:induction false} TrimBehind(s: string, b: string)
    requires AllSpace(b)
    ensures TrimSpace(s + b) == TrimSpace(s)
    decreases |s|
  {
    if s == [] {
      TrimLeftSpace(b, []);
      assert b + [] == b && s + b == b;
    } else if IsSpace(s[0]) {
      assert (s + b)[1..] == s[1..] + b;
      TrimBehind(s[1..], b);
    } else {
      TrimRightSpace(s, b);
    }
  }

  /** White space around a component is ignored, and so is white space before its closing quote. */
  lemma WhitespaceIgnored(a: string, s: string, b: string, c: string)
    requires AllSpace(a) && AllSpace(b) && AllSpace(c)
    ensures ParseComponent(a + s + b) == ParseComponent(s)
    ensures ParseComponent(a + s + b + "'" + c) == ParseComponent(s + "'")
  {
    TrimAround(a, s, b);
    QuotedCore(a + s + b, c);
    QuotedCore(s, []);
    assert s + "'" + [] == s + "'";
  }

  lemma TrimAround(a: string, s: string, b: string)
    requires AllSpace(a) && AllSpace(b)
    ensures TrimSpace(a + s + b) == TrimSpace(s)
  {
    assert a + s + b == a + (s + b);
    TrimLeftSpace(a, s + b);
    TrimBehind(s, b);
  }

  lemma {:induction false} TrimLeftQuoted(s: string)
    ensures TrimLeft(s + "'") == TrimLeft(s) + "'" && TrimLeft(TrimLeft(s)) == TrimLeft(s)
    decreases |s|
  {
    if s == [] {
      assert (s + "'")[0] == '\'' && TrimLeft(s) == s;
    } else if IsSpace(s[0]) {
      assert (s + "'")[1..] == s[1..] + "'";
      TrimLeftQuoted(s[1..]);
    }
  }

  /** Whether a component is hardened, and the text that must be its number. */
  predicate Hardened(s: string) {
    var t := TrimSpace(s);
    t != [] && t[|t| - 1] == '\''
  }

  function Core(s: string): string {
    var t := TrimSpace(s);
    if Hardened(s) then TrimSpace(t[..|t| - 1]) else t
  }

  lemma QuotedCore(s: string, c: string)
    requires AllSpace(c)
    ensures Hardened(s + "'" + c) && Core(s + "'" + c) == TrimSpace(s)
  {
    TrimBehind(s + "'", c);
    TrimLeftQuoted(s);
    var t := TrimLeft(s) + "'";
    assert t[|t| - 1] == '\'' && t[..|t| - 1] == TrimLeft(s);
  }

  ghost predicate NoSpace(s: string) {
    forall i :: 0 <= i < |s| ==> !IsSpace(s[i])
  }

  lemma {:induction false} ScanSpace(s: string, base: nat, prev: Previous, count: nat, acc: nat)
    requires !NoSpace(s) && base <= 36
    ensures Scan(s, base, prev, count, acc).None?
    decreases |s|
  {
    if !IsSpace(s[0]) {
      assert s == [s[0]] + s[1..];
      var d := DigitValue(s[0]);
      if s[0] == '_' {
        ScanSpace(s[1..], base, Separator, count, acc);
      } else {
        ScanSpace(s[1..], base, Digit, count + 1, acc * base + d);
      }
    }
  }

  lemma SpaceBehind(s: string, n: nat)
    requires n <= |s| && NoSpace(s[..n]) && !NoSpace(s)
    ensures !NoSpace(s[n..])
  {
    var i :| 0 <= i < |s| && IsSpace(s[i]);
    assert forall k :: 0 <= k < n ==> s[..n][k] == s[k];
    assert s[n..][i - n] == s[i];
  }

  /** A number holds no white space. */
  lemma SetStringSpace(s: string)
    requires !NoSpace(s)
    ensures SetString(s).None?
  {
    var digits := if s[0] == '-' || s[0] == '+' then s[1..] else s;
    if digits != s { SpaceBehind(s, 1); }
    if digits[0] != '0' {
      ScanSpace(digits, 10, Start, 0, 0);
    } else {
      SpaceBehind(digits, 1);
      if PrefixBase(digits[1]) > 0 {
        SpaceBehind(digits, 2);
        ScanSpace(digits[2..], PrefixBase(digits[1]), Digit, 0, 0);
      } else {
        ScanSpace(digits[1..], 8, Digit, 0, 0);
      }
    }
  }

  /** The text without any white space. */
  function Stripped(s: string): string {
    if s == [] then []
    else if IsSpace(s[|s| - 1]) then Stripped(s[..|s| - 1])
    else Stripped(s[..|s| - 1]) + [s[|s| - 1]]
  }

  lemma {:induction false} StrippedMore(s: string, c: char)
    ensures Stripped(s + [c]) == if IsSpace(c) then Stripped(s) else Stripped(s) + [c]
  {
    assert (s + [c])[..|s|] == s;
  }

  lemma {:induction false} StrippedNoSpace(s: string)
    ensures NoSpace(Stripped(s)) && (NoSpace(s) ==> Stripped(s) == s)
    decreases |s|
  {
    if s != [] {
      StrippedNoSpace(s[..|s| - 1]);
      assert s == s[..|s| - 1] + [s[|s| - 1]];
    }
  }

  lemma {:induction false} StrippedFront(s: string)
    requires s != [] && IsSpace(s[0])
    ensures Stripped(s[1..]) == Stripped(s)
    decreases |s|
  {
    if |s| > 1 {
      StrippedFront(s[..|s| - 1]);
      assert s[1..][..|s| - 2] == s[..|s| - 1][1..];
    }
  }

  lemma {:induction false} StrippedTrimLeft(s: string)
    ensures Stripped(TrimLeft(s)) == Stripped(s)
    decreases |s|
  {
    if s != [] && IsSpace(s[0]) {
      StrippedFront(s);
      StrippedTrimLeft(s[1..]);
    }
  }

  lemma {:induction false} StrippedTrimRight(s: string)
    ensures Stripped(TrimRight(s)) == Stripped(s)
    ensures TrimRight(s) != [] ==> !IsSpace(TrimRight(s)[|TrimRight(s)| - 1])
    decreases |s|
  {
    if s != [] && IsSpace(s[|s| - 1]) { StrippedTrimRight(s[..|s| - 1]); }
  }

  lemma StrippedTrim(s: string)
    ensures Stripped(TrimSpace(s)) == Stripped(s)
    ensures var t := TrimSpace(s); t != [] ==> !IsSpace(t[|t| - 1])
  {
    StrippedTrimLeft(s);
    StrippedTrimRight(TrimLeft(s));
  }

  lemma TrimNoSpace(s: string)
    requires NoSpace(s)
    ensures TrimSpace(s) == s
  {
  }

  /** Without white space a component is as hardened as before, and its number is the old one without white space. */
  lemma {:induction false} StrippedCore(s: string)
    ensures Hardened(Stripped(s)) == Hardened(s) && Core(Stripped(s)) == Stripped(Core(s))
  {
    var t := TrimSpace(s);
    StrippedTrim(s);
    StrippedNoSpace(t);
    TrimNoSpace(Stripped(t));
    if t != [] {
      var u := t[..|t| - 1];
      StrippedTrim(u);
      StrippedNoSpace(u);
      TrimNoSpace(Stripped(u));
      assert Stripped(t) == Stripped(u) + [t[|t| - 1]];
    }
  }

  /** What white space does to a component, whatever the component is.  Inside the number it makes it invalid;
      anywhere else it changes nothing. */
  lemma {:induction false} WhitespaceExactly(s: string)
    ensures !NoSpace(Core(s)) ==> ParseComponent(s) == Err(InvalidComponent)
    ensures NoSpace(Core(s)) ==> ParseComponent(s) == ParseComponent(Stripped(s))
    ensures ParseComponent(s) == ParseComponent(Stripped(s)) <==>
              NoSpace(Core(s)) || SetString(Stripped(Core(s))).None?
  {
    StrippedCore(s);
    StrippedNoSpace(Core(s));
    if !NoSpace(Core(s)) { SetStringSpace(Core(s)); }
  }

  function AllStripped(parts: seq<string>): (r: seq<string>)
    ensures |r| == |parts|
  {
    if parts == [] then [] else AllStripped(parts[..|parts| - 1]) + [Stripped(parts[|parts| - 1])]
  }

  lemma {:induction false} AllStrippedMore(parts: seq<string>, s: string)
    ensures AllStripped(parts + [s]) == AllStripped(parts) + [Stripped(s)]
  {
    assert (parts + [s])[..|parts|] == parts;
  }

  lemma {:induction false} BehindLast(parts: seq<string>, s: string, c: char)
    requires c != '/'
    ensures Behind(parts + [s], c) == parts + [s + [c]]
  {
  }

  lemma {:induction false} StrippedBehind(parts: seq<string>, c: char)
    requires |parts| > 0
    ensures AllStripped(Behind(parts, c)) ==
            if IsSpace(c) then AllStripped(parts) else Behind(AllStripped(parts), c)
  {
    var front, last := parts[..|parts| - 1], parts[|parts| - 1];
    assert parts == front + [last];
    if c == '/' {
      AllStrippedMore(parts, "");
    } else {
      BehindLast(front, last, c);
      AllStrippedMore(front, last);
      AllStrippedMore(front, last + [c]);
      StrippedMore(last, c);
      if !IsSpace(c) { BehindLast(AllStripped(front), Stripped(last), c); }
    }
  }

  /** White space never separates components. */
  lemma {:induction false} SplitStripped(s: string)
    ensures Split(Stripped(s)) == AllStripped(Split(s))
    decreases |s|
  {
    if s != [] {
      var t, c := s[..|s| - 1], s[|s| - 1];
      assert s == t + [c];
      SplitStripped(t);
      SplitMore(t, c);
      StrippedMore(t, c);
      StrippedBehind(Split(t), c);
      SplitMore(Stripped(t), c);
    }
  }

  /** No number of the path holds white space. */
  ghost predicate NoneInside(parts: seq<string>) {
    forall i :: 0 <= i < |parts| ==> NoSpace(Core(parts[i]))
  }

  lemma NoneInsideMore(parts: seq<string>, s: string)
    ensures NoneInside(parts + [s]) <==> NoneInside(parts) && NoSpace(Core(s))
  {
    var t := parts + [s];
    assert t[|parts|] == s && forall i :: 0 <= i < |parts| ==> t[i] == parts[i];
  }

  lemma {:induction false} ParseAllStripped(parts: seq<string>, before: Path)
    requires NoneInside(parts)
    ensures ParseAll(AllStripped(parts), before) == ParseAll(parts, before)
    decreases |parts|
  {
    if parts != [] {
      var front, last := parts[..|parts| - 1], parts[|parts| - 1];
      assert parts == front + [last];
      NoneInsideMore(front, last);
      ParseAllStripped(front, before);
      AllStrippedMore(front, last);
      ParseAllSnoc(front, last, before);
      ParseAllSnoc(AllStripped(front), Stripped(last), before);
      assert ParseComponent(Stripped(last)) == ParseComponent(last) by { WhitespaceExactly(last); }
    }
  }

  lemma {:induction false} InsideFails(parts: seq<string>, before: Path)
    requires !NoneInside(parts)
    ensures ParseAll(parts, before).Err?
    decreases |parts|
  {
    var front, last := parts[..|parts| - 1], parts[|parts| - 1];
    assert parts == front + [last];
    NoneInsideMore(front, last);
    if NoneInside(front) {
      assert ParseComponent(last).Err? by { WhitespaceExactly(last); }
    } else {
      InsideFails(front, before);
    }
  }

  lemma {:induction false} AllStrippedAt(parts: seq<string>, i: nat)
    requires i < |parts|
    ensures AllStripped(parts)[i] == Stripped(parts[i])
    decreases |parts|
  {
    if i < |parts| - 1 { AllStrippedAt(parts[..|parts| - 1], i); }
  }

  lemma {:induction false} AllStrippedRest(parts: seq<string>)
    requires |parts| > 0
    ensures AllStripped(parts)[1..] == AllStripped(parts[1..])
  {
    forall i: nat | i < |parts| - 1 ensures AllStripped(parts)[1..][i] == AllStripped(parts[1..])[i] {
      AllStrippedAt(parts, i + 1);
      AllStrippedAt(parts[1..], i);
    }
  }

  /** The first component says the same about the path with and without its white space. */
  lemma {:induction false} StrippedFirst(s: string)
    requires NoSpace(Core(s))
    ensures TrimSpace(s) == "" <==> TrimSpace(Stripped(s)) == ""
    ensures TrimSpace(s) == "m" <==> TrimSpace(Stripped(s)) == "m"
  {
    StrippedCore(s);
    StrippedNoSpace(Core(s));
  }

  lemma OnlyNumbers(s: string)
    ensures TrimSpace(s) == "" || TrimSpace(s) == "m" ==> NoSpace(Core(s))
  {
  }

  /** White space in a path is ignored exactly where it is not inside a number: there it makes the path an error. */
  lemma {:induction false} PathWhitespaceExactly(s: string)
    ensures NoneInside(Split(s)) ==> Parse(s) == Parse(Stripped(s))
    ensures Parse(s).Ok? <==> NoneInside(Split(s)) && Parse(Stripped(s)).Ok?
  {
    var parts := Split(s);
    SplitStripped(s);
    AllStrippedAt(parts, 0);
    AllStrippedRest(parts);
    OnlyNumbers(parts[0]);
    assert NoneInside(parts) <==> NoSpace(Core(parts[0])) && NoneInside(parts[1..]) by {
      assert forall i :: 0 < i < |parts| ==> parts[i] == parts[1..][i - 1];
    }
    if !NoSpace(Core(parts[0])) {
      InsideFails(parts, ROOT);
    } else {
      StrippedFirst(parts[0]);
      if NoneInside(parts) {
        ParseAllStripped(parts, ROOT);
        ParseAllStripped(parts[1..], []);
      } else {
        InsideFails(parts, ROOT);
        InsideFails(parts[1..], []);
      }
    }
  }

  /** The documentation of `ParseDerivationPath` says white space is ignored; between digits it is not. */
  lemma InnerWhitespaceExample()
    ensures ParseComponent("4 4") == Err(InvalidComponent) && ParseComponent(Stripped("4 4")) == Ok(44)
  {
    StrippedMore("4", ' ');
    StrippedMore("4 ", '4');
    StrippedNoSpace("4");
    assert "4 4" == "4 " + ['4'] && "4 " == "4" + [' '] && Stripped("4 4") == "44";
    assert Decimal(44) == "44" by { assert Decimal(4) == "4"; }
    ComponentRange(44);
    TrimNoop("4 4");
    assert IsSpace("4 4"[1]);
    WhitespaceExactly("4 4");
  }
}
