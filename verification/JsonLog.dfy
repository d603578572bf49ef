/** One JSON line built in a fixed buffer of bytes. */
module JsonLog {

  import opened Collections
  import opened Decimal

  type byte = b: int | 0 <= b < 256

  /** A C string: bytes up to, and not including, its terminator. */
  type CString = s: seq<byte> | forall i :: 0 <= i < |s| ==> s[i] != 0

  const LINE := 4096
  const QUOTE: byte := 34
  const BACKSLASH: byte := 92
  const COMMA: byte := 44
  const COLON: byte := 58
  const OPEN: byte := 123
  const CLOSE: byte := 125
  const NEWLINE: byte := 10

  // ---------------------------------------------------------------- the text of one string

  function HexDigit(d: int): byte
    requires 0 <= d < 16
  {
    if d < 10 then 48 + d else 87 + d
  }

  /** The bytes that stand for `c` inside a string. */
  function Escape(c: byte): (e: seq<byte>)
    ensures 1 <= |e| <= 6
  {
    if c == QUOTE then [BACKSLASH, QUOTE]
    else if c == BACKSLASH then [BACKSLASH, BACKSLASH]
    else if c == 8 then [BACKSLASH, 98]
    else if c == 12 then [BACKSLASH, 102]
    else if c == 10 then [BACKSLASH, 110]
    else if c == 13 then [BACKSLASH, 114]
    else if c == 9 then [BACKSLASH, 116]
    else if c < 0x20 then [BACKSLASH, 117, 48, 48, HexDigit(c / 16), HexDigit(c % 16)]
    else [c]
  }

  function Escaped(s: seq<byte>): seq<byte> {
    if s == [] then [] else Escaped(s[..|s| - 1]) + Escape(s[|s| - 1])
  }

  function Quoted(s: seq<byte>): seq<byte> {
    [QUOTE] + Escaped(s) + [QUOTE]
  }

  /** How many leading bytes of `s` go in whole when the text, its opening quote included, must stay
      below `cap`. */
  function Fitting(s: seq<byte>, cap: nat): (k: nat)
    ensures k <= |s|
  {
    if s == [] then 0
    else
      var k := Fitting(s[..|s| - 1], cap);
      if k == |s| - 1 && 1 + |Escaped(s)| < cap then |s| else k
  }

  /** What is written for `s` into `cap` bytes: all of it, or an opening quote and as many whole
      escapes as fit. */
  function Printed(s: seq<byte>, cap: nat): (t: seq<byte>)
    ensures |t| <= cap
  {
    if cap == 0 then []
    else if cap == 1 then [QUOTE]
    else
      FittingMeans(s, cap);
      if Fitting(s, cap) == |s| then Quoted(s)
      else [QUOTE] + Escaped(s[..Fitting(s, cap)])
  }

  lemma {:induction false} FittingMeans(s: seq<byte>, cap: nat)
    requires cap > 1
    ensures 1 + |Escaped(s[..Fitting(s, cap)])| < cap
    ensures Fitting(s, cap) == |s| <==> |Escaped(s)| + 2 <= cap
  {
    if s == [] {
      assert Escaped([]) == [];
    } else {
      var init := s[..|s| - 1];
      FittingMeans(init, cap);
      assert init[..Fitting(init, cap)] == s[..Fitting(init, cap)];
      assert s[..|s|] == s;
    }
  }

  /** A string is printed whole exactly when it fits with its quotes. */
  lemma PrintedWholeIff(s: seq<byte>, cap: nat)
    ensures Printed(s, cap) == Quoted(s) <==> |Quoted(s)| <= cap
  {
    if cap > 1 {
      FittingMeans(s, cap);
      assert s[..|s|] == s;
    }
  }

  /** The loop's state once `i` bytes are in: `n` bytes of text, and they all fitted. */
  lemma FittingStep(s: seq<byte>, cap: nat, i: nat)
    requires cap > 1 && i < |s| && Fitting(s[..i], cap) == i
    ensures Escaped(s[..i + 1]) == Escaped(s[..i]) + Escape(s[i])
    ensures Fitting(s[..i + 1], cap) == if 1 + |Escaped(s[..i])| + |Escape(s[i])| < cap then i + 1 else i
  {
    assert s[..i + 1][..i] == s[..i];
  }

  lemma {:induction false} FittingStays(s: seq<byte>, cap: nat, i: nat, j: nat)
    requires i < j <= |s| && Fitting(s[..i + 1], cap) == i
    ensures Fitting(s[..j], cap) == i
  {
    hide Escaped, Escape;
    if j > i + 1 {
      FittingStays(s, cap, i, j - 1);
      assert s[..j][..j - 1] == s[..j - 1];
    }
  }

  // ---------------------------------------------------------------- writing it

  /** A writer given `cap` bytes of `buf` from `at` touches nothing else. */
  twostate predicate Within(buf: array<byte>, at: nat, cap: nat)
    reads buf
  {
    at + cap <= buf.Length && forall i :: 0 <= i < at || at + cap <= i < buf.Length ==> buf[i] == old(buf[i])
  }

  ghost predicate Holds(buf: array<byte>, at: nat, text: seq<byte>)
    reads buf
  {
    at + |text| <= buf.Length && forall i :: 0 <= i < |text| ==> buf[at + i] == text[i]
  }

  method Store(buf: array<byte>, at: nat, bytes: seq<byte>)
    requires at + |bytes| <= buf.Length
    modifies buf
    ensures Holds(buf, at, bytes) && Within(buf, at, |bytes|)
  {
    forall i | 0 <= i < |bytes| {
      buf[at + i] := bytes[i];
    }
  }

  /** Appends after `text`. */
  method Append(buf: array<byte>, at: nat, ghost text: seq<byte>, n: nat, bytes: seq<byte>)
    requires n == |text| && Holds(buf, at, text) && at + n + |bytes| <= buf.Length
    modifies buf
    ensures Holds(buf, at, text + bytes) && Within(buf, at + n, |bytes|)
  {
    Store(buf, at + n, bytes);
    forall i | 0 <= i < |text + bytes| ensures buf[at + i] == (text + bytes)[i] {
      if i >= |text| {
        assert buf[(at + n) + (i - |text|)] == bytes[i - |text|];
      }
    }
  }

  method JsonStr(buf: array<byte>, at: nat, cap: nat, s: CString) returns (n: nat)
    requires at + cap <= buf.Length
    modifies buf
    ensures n == |Printed(s, cap)| <= cap && Holds(buf, at, Printed(s, cap))
    ensures Within(buf, at, cap)
  {
    hide Escape, Fitting, Escaped;
    if cap == 0 {
      return 0;
    }
    buf[at] := QUOTE;
    n := 1;
    if cap == 1 {
      return;
    }
    NoneYet(s, cap);
    for i := 0 to |s|
      invariant n == 1 + |Escaped(s[..i])| < cap
      invariant Fitting(s[..i], cap) == i
      invariant Holds(buf, at, [QUOTE] + Escaped(s[..i]))
      invariant Within(buf, at, cap)
    {
      FittingStep(s, cap, i);
      var esc := Escape(s[i]);
      if n + |esc| >= cap {
        FittingEnds(s, cap, i);
        buf[at + n] := 0;
        return;
      }
      Append(buf, at, [QUOTE] + Escaped(s[..i]), n, esc);
      assert [QUOTE] + Escaped(s[..i]) + esc == [QUOTE] + Escaped(s[..i + 1]);
      n := n + |esc|;
    }
    assert s[..|s|] == s;
    Append(buf, at, [QUOTE] + Escaped(s), n, [QUOTE]);
    n := n + 1;
    if n < cap {
      buf[at + n] := 0;
    }
  }

  lemma NoneYet(s: seq<byte>, cap: nat)
    ensures Escaped(s[..0]) == [] && Fitting(s[..0], cap) == 0
  {
  }

  lemma FittingEnds(s: seq<byte>, cap: nat, i: nat)
    requires i < |s| && Fitting(s[..i + 1], cap) == i
    ensures Fitting(s, cap) == i
  {
    assert s[..|s|] == s;
    if i + 1 < |s| {
      FittingStays(s, cap, i, |s|);
    }
  }

  // ---------------------------------------------------------------- fields

  datatype Value = Str(s: seq<byte>) | Int(i: int) | Bool(b: bool)
  datatype Field = Field(key: seq<byte>, value: Value)

  function Printable(d: seq<int>): seq<byte>
    requires AreDigits(d)
  {
    seq(|d|, i requires 0 <= i < |d| => 48 + d[i])
  }

  const TRUE: seq<byte> := [116, 114, 117, 101]
  const FALSE: seq<byte> := [102, 97, 108, 115, 101]

  function Literal(v: Value): seq<byte>
    requires !v.Str?
  {
    match v
    case Bool(b) => if b then TRUE else FALSE
    case Int(i) => if i < 0 then [45] + Printable(Digits(-i)) else Printable(Digits(i))
  }

  /** Separator, key and colon, as far as they go. */
  function KeyText(key: seq<byte>, cap: nat, comma: bool): (t: seq<byte>)
    ensures |t| <= cap
  {
    var c := if comma && cap > 0 then [COMMA] else [];
    var k := c + Printed(key, cap - |c|);
    if |k| < cap then k + [COLON] else k
  }

  /** A string is cut to what is left; a number or truth value is written whole or not at all. */
  function FieldText(f: Field, cap: nat, comma: bool): (t: seq<byte>)
    ensures |t| <= cap
  {
    var k := KeyText(f.key, cap, comma);
    if f.value.Str? then k + Printed(f.value.s, cap - |k|)
    else if |k| + |Literal(f.value)| < cap then k + Literal(f.value)
    else k
  }

  predicate Terminated(s: seq<byte>) {
    forall i :: 0 <= i < |s| ==> s[i] != 0
  }

  predicate Loggable(f: Field) {
    && Terminated(f.key) && (f.value.Str? ==> Terminated(f.value.s))
    && (f.value.Int? ==> MIN_INT64 <= f.value.i <= MAX_INT64)
  }

  method JsonKey(buf: array<byte>, at: nat, cap: nat, key: CString, comma: bool) returns (n: nat)
    requires at + cap <= buf.Length
    modifies buf
    ensures n == |KeyText(key, cap, comma)| <= cap && Holds(buf, at, KeyText(key, cap, comma))
    ensures Within(buf, at, cap)
  {
    hide Printed;
    n := 0;
    if comma && n < cap {
      buf[at] := COMMA;
      n := 1;
    }
    var k := JsonStr(buf, at + n, cap - n, key);
    ghost var text := (if n == 1 then [COMMA] else []) + Printed(key, cap - n);
    Joined(buf, at, if n == 1 then [COMMA] else [], Printed(key, cap - n));
    n := n + k;
    if n < cap {
      Append(buf, at, text, n, [COLON]);
      n := n + 1;
    }
  }

  lemma Joined(buf: array<byte>, at: nat, a: seq<byte>, b: seq<byte>)
    requires Holds(buf, at, a) && Holds(buf, at + |a|, b)
    ensures Holds(buf, at, a + b)
  {
  }

  /** One field. A number is first put into a 32-byte buffer of its own. */
  method JsonKv(buf: array<byte>, at: nat, cap: nat, f: Field, comma: bool) returns (n: nat)
    requires at + cap <= buf.Length && Loggable(f)
    modifies buf
    ensures n == |FieldText(f, cap, comma)| <= cap && Holds(buf, at, FieldText(f, cap, comma))
    ensures Within(buf, at, cap)
  {
    hide Printed, KeyText, Literal;
    if cap == 0 {
      assert FieldText(f, cap, comma) == [];
      return 0;
    }
    n := JsonKey(buf, at, cap, f.key, comma);
    ghost var k := KeyText(f.key, cap, comma);
    if f.value.Str? {
      var m := JsonStr(buf, at + n, cap - n, f.value.s);
      Joined(buf, at, k, Printed(f.value.s, cap - n));
      n := n + m;
    } else {
      var text := Literal(f.value);
      LiteralIsShort(f);
      if n + |text| < cap {
        Append(buf, at, k, n, text);
        n := n + |text|;
      }
    }
    if n < cap {
      buf[at + n] := 0;
    }
  }

  lemma LiteralIsShort(f: Field)
    requires Loggable(f) && !f.value.Str?
    ensures |Literal(f.value)| < 32
  {
    if f.value.Int? {
      Int64Digits(if f.value.i < 0 then -f.value.i else f.value.i);
    }
  }

  // ---------------------------------------------------------------- the record

  datatype Level = Debug | Info | Warn | Error

  function Rank(l: Level): nat {
    match l case Debug => 0 case Info => 1 case Warn => 2 case Error => 3
  }

  function Bytes(s: string): seq<byte>
    requires forall i :: 0 <= i < |s| ==> '\U{01}' <= s[i] < '\U{80}'
  {
    seq(|s|, i requires 0 <= i < |s| => s[i] as int)
  }

  function LevelName(l: Level): seq<byte> {
    match l
    case Debug => Bytes("debug")
    case Info => Bytes("info")
    case Warn => Bytes("warn")
    case Error => Bytes("error")
  }

  /** The five fields every record starts with. */
  function Header(ts: seq<byte>, level: Level, subsys: Option<seq<byte>>, msg: Option<seq<byte>>, pid: int): seq<Field> {
    [ Field(Bytes("ts"), Str(ts)),
      Field(Bytes("level"), Str(LevelName(level))),
      Field(Bytes("subsys"), Str(if subsys.Some? then subsys.value else Bytes("core"))),
      Field(Bytes("msg"), Str(if msg.Some? then msg.value else [])),
      Field(Bytes("pid"), Int(pid)) ]
  }

  /** The line after `i` fields. */
  function Filled(fs: seq<Field>, i: nat): (t: seq<byte>)
    requires i <= |fs|
    ensures 1 <= |t| <= LINE
  {
    if i == 0 then [OPEN]
    else
      var t := Filled(fs, i - 1);
      t + FieldText(fs[i - 1], LINE - |t|, i > 1)
  }

  function Record(fs: seq<Field>): seq<byte> {
    var t := Filled(fs, |fs|);
    (if |t| + 2 >= LINE then t[..LINE - 3] else t) + [CLOSE, NEWLINE]
  }

  ghost predicate AllLoggable(fs: seq<Field>) {
    forall i :: 0 <= i < |fs| ==> Loggable(fs[i])
  }

  method FillLine(line: array<byte>, fs: seq<Field>) returns (n: nat)
    requires line.Length == LINE && AllLoggable(fs)
    modifies line
    ensures n == |Filled(fs, |fs|)| && Holds(line, 0, Filled(fs, |fs|))
  {
    hide FieldText, Loggable;
    line[0] := OPEN;
    n := 1;
    for i := 0 to |fs|
      invariant n == |Filled(fs, i)| && Holds(line, 0, Filled(fs, i))
    {
      ghost var t := Filled(fs, i);
      var m := JsonKv(line, n, LINE - n, fs[i], i > 0);
      assert Holds(line, 0, t);
      Joined(line, 0, t, FieldText(fs[i], LINE - n, i > 0));
      n := n + m;
    }
  }

  /** Closes the record, over its last bytes if the line is full. */
  method CloseLine(line: array<byte>, full: nat, ghost t: seq<byte>) returns (n: nat)
    requires line.Length == LINE && full == |t| && Holds(line, 0, t)
    modifies line
    ensures n < LINE && line[..n] == (if full + 2 >= LINE then t[..LINE - 3] else t) + [CLOSE, NEWLINE]
  {
    n := full;
    if n + 2 >= LINE {
      n := LINE - 3;
    }
    line[n] := CLOSE;
    n := n + 1;
    line[n] := NEWLINE;
    n := n + 1;
    line[n] := 0;
  }

  /** The levels that are dropped when `inForce` is. */
  predicate Dropped(level: Level, inForce: Level) {
    match inForce
    case Debug => false
    case Info => level.Debug?
    case Warn => level.Debug? || level.Info?
    case Error => !level.Error?
  }

  /** Below the level in force nothing is written. Every store lands inside the line. */
  method Emit(inForce: Level, level: Level, ts: CString, subsys: Option<CString>, msg: Option<CString>, pid: int64,
              kvs: seq<Field>) returns (record: Option<seq<byte>>)
    requires AllLoggable(kvs)
    ensures record == if Rank(level) < Rank(inForce) then None
                      else Some(Record(Header(ts, level, subsys, msg, pid) + kvs))
    ensures record.None? <==> Dropped(level, inForce)
  {
    if Rank(level) < Rank(inForce) {
      return None;
    }
    hide Header, Loggable, Filled;
    var fs := Header(ts, level, subsys, msg, pid) + kvs;
    HeaderLoggable(ts, level, subsys, msg, pid);
    var line := new byte[LINE];
    var n := FillLine(line, fs);
    n := CloseLine(line, n, Filled(fs, |fs|));
    return Some(line[..n]);
  }

  lemma HeaderLoggable(ts: CString, level: Level, subsys: Option<CString>, msg: Option<CString>, pid: int64)
    ensures AllLoggable(Header(ts, level, subsys, msg, pid))
  {
    BytesTerminated("ts");
    BytesTerminated("level");
    BytesTerminated("subsys");
    BytesTerminated("msg");
    BytesTerminated("pid");
    BytesTerminated("core");
    LevelTerminated(level);
    hide Bytes, LevelName;
  }

  lemma BytesTerminated(s: string)
    requires forall i :: 0 <= i < |s| ==> '\U{01}' <= s[i] < '\U{80}'
    ensures Terminated(Bytes(s))
  {
  }

  lemma LevelTerminated(level: Level)
    ensures Terminated(LevelName(level))
  {
  }
}
