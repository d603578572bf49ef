/** What a record says: its line is one line, and read back as JSON it is the fields that were logged. */
module JsonRecord {

  import opened Collections
  import opened Decimal
  import opened JsonLog

  // ---------------------------------------------------------------- one line

  ghost predicate Visible(t: seq<byte>) {
    forall i :: 0 <= i < |t| ==> t[i] >= 0x20
  }

  lemma {:induction false} EscapedVisible(s: seq<byte>)
    ensures Visible(Escaped(s))
  {
    if s != [] {
      EscapedVisible(s[..|s| - 1]);
    }
  }

  lemma PrintedVisible(s: seq<byte>, cap: nat)
    ensures Visible(Printed(s, cap))
  {
    EscapedVisible(s);
    EscapedVisible(s[..Fitting(s, cap)]);
  }

  lemma FieldVisible(f: Field, cap: nat, comma: bool)
    ensures Visible(FieldText(f, cap, comma))
  {
    hide Printed;
    PrintedVisible(f.key, if comma && cap > 0 then cap - 1 else cap);
    if f.value.Str? {
      PrintedVisible(f.value.s, cap - |KeyText(f.key, cap, comma)|);
    }
  }

  lemma OpenVisible()
    ensures Visible([OPEN])
  {
  }

  lemma BothVisible(a: seq<byte>, b: seq<byte>)
    requires Visible(a) && Visible(b)
    ensures Visible(a + b)
  {
  }

  lemma {:induction false} FilledVisible(fs: seq<Field>, i: nat)
    requires i <= |fs|
    ensures Visible(Filled(fs, i))
  {
    hide FieldText, Visible;
    if i == 0 {
      OpenVisible();
    } else {
      var t := Filled(fs, i - 1);
      FilledVisible(fs, i - 1);
      FieldVisible(fs[i - 1], LINE - |t|, i > 1);
      BothVisible(t, FieldText(fs[i - 1], LINE - |t|, i > 1));
    }
  }

  /** A record is one line, even cut short: below 4096 bytes, ending in a newline, with no other
      control byte anywhere. */
  lemma RecordIsOneLine(fs: seq<Field>)
    ensures 3 <= |Record(fs)| < LINE
    ensures Record(fs)[|Record(fs)| - 1] == NEWLINE
    ensures Visible(Record(fs)[..|Record(fs)| - 1])
  {
    FilledVisible(fs, |fs|);
    var t := Filled(fs, |fs|);
    assert Visible(t[..if |t| + 2 >= LINE then LINE - 3 else |t|]);
    assert Record(fs)[..|Record(fs)| - 1] == (if |t| + 2 >= LINE then t[..LINE - 3] else t) + [CLOSE];
  }

  // ---------------------------------------------------------------- cut short, or not

  function WholeField(f: Field, comma: bool): seq<byte> {
    (if comma then [COMMA] else []) + Quoted(f.key) + [COLON] + WholeValue(f.value)
  }

  function WholeValue(v: Value): seq<byte> {
    if v.Str? then Quoted(v.s) else Literal(v)
  }

  /** The fields from `i` on, and the end of the record. */
  function WholeFrom(fs: seq<Field>, i: nat): seq<byte>
    requires i <= |fs|
    decreases |fs| - i
  {
    if i == |fs| then [CLOSE, NEWLINE] else WholeField(fs[i], i > 0) + WholeFrom(fs, i + 1)
  }

  /** The record with nothing cut. */
  function Whole(fs: seq<Field>): seq<byte> {
    [OPEN] + WholeFrom(fs, 0)
  }

  lemma WholeKeyFits(key: seq<byte>, cap: nat, comma: bool)
    requires |(if comma then [COMMA] else []) + Quoted(key)| < cap
    ensures KeyText(key, cap, comma) == (if comma then [COMMA] else []) + Quoted(key) + [COLON]
  {
    hide Printed, Quoted;
    PrintedWholeIff(key, if comma then cap - 1 else cap);
  }

  lemma WholeFieldFits(f: Field, cap: nat, comma: bool)
    requires |WholeField(f, comma)| < cap
    ensures FieldText(f, cap, comma) == WholeField(f, comma)
  {
    hide Printed, Quoted, KeyText;
    WholeKeyFits(f.key, cap, comma);
    if f.value.Str? {
      PrintedWholeIff(f.value.s, cap - |KeyText(f.key, cap, comma)|);
    }
  }

  lemma {:induction false} WholeSoFar(fs: seq<Field>, i: nat)
    requires i <= |fs| && |Whole(fs)| < LINE
    ensures Filled(fs, i) + WholeFrom(fs, i) == Whole(fs)
  {
    hide WholeField, FieldText;
    if i > 0 {
      WholeSoFar(fs, i - 1);
      var t := Filled(fs, i - 1);
      var f := WholeField(fs[i - 1], i > 1);
      AtLeastTheEnd(fs, i);
      WholeFieldFits(fs[i - 1], LINE - |t|, i > 1);
      assert t + (f + WholeFrom(fs, i)) == (t + f) + WholeFrom(fs, i);
    }
  }

  lemma {:induction false} AtLeastTheEnd(fs: seq<Field>, i: nat)
    requires i <= |fs|
    ensures |WholeFrom(fs, i)| >= 2
    decreases |fs| - i
  {
  }

  /** Nothing is cut exactly when the whole record, with its terminator, fits the line. */
  lemma WholeIff(fs: seq<Field>)
    ensures Record(fs) == Whole(fs) <==> |Whole(fs)| < LINE
  {
    hide Filled, WholeFrom;
    RecordIsOneLine(fs);
    if |Whole(fs)| < LINE {
      WholeSoFar(fs, |fs|);
      NothingLeft(fs);
    }
  }

  lemma NothingLeft(fs: seq<Field>)
    ensures WholeFrom(fs, |fs|) == [CLOSE, NEWLINE]
  {
  }

  // ---------------------------------------------------------------- reading JSON (RFC 8259)

  datatype Read<T> = Fail | Got(value: T, rest: seq<byte>)

  function HexValue(b: byte): Option<int> {
    if 48 <= b <= 57 then Some(b - 48)
    else if 97 <= b <= 102 then Some(b - 87)
    else if 65 <= b <= 70 then Some(b - 55)
    else None
  }

  /** The four digits of a \u escape. */
  function Hex4(t: seq<byte>): Option<int>
    requires |t| >= 4
  {
    var a, b, c, d := HexValue(t[0]), HexValue(t[1]), HexValue(t[2]), HexValue(t[3]);
    if a.None? || b.None? || c.None? || d.None? then None
    else Some(((a.value * 16 + b.value) * 16 + c.value) * 16 + d.value)
  }

  /** One character of a string, section 7: control bytes, and a quote, must be escaped. A \u escape
      is read when it names an ASCII character; the writer uses no other. */
  function ReadChar(t: seq<byte>): Read<byte> {
    if t == [] || t[0] == QUOTE || t[0] < 0x20 then Fail
    else if t[0] != BACKSLASH then Got(t[0], t[1..])
    else if |t| < 2 then Fail
    else
      match t[1]
      case 34 => Got(34, t[2..])
      case 92 => Got(92, t[2..])
      case 47 => Got(47, t[2..])
      case 98 => Got(8, t[2..])
      case 102 => Got(12, t[2..])
      case 110 => Got(10, t[2..])
      case 114 => Got(13, t[2..])
      case 116 => Got(9, t[2..])
      case 117 =>
        if |t| < 6 || Hex4(t[2..]).None? || Hex4(t[2..]).value >= 128 then Fail
        else Got(Hex4(t[2..]).value, t[6..])
      case _ => Fail
  }

  function ReadChars(t: seq<byte>): Read<seq<byte>>
    decreases |t|
  {
    if t != [] && t[0] == QUOTE then Got([], t[1..])
    else
      var c := ReadChar(t);
      if c.Fail? || |c.rest| >= |t| then Fail
      else
        var r := ReadChars(c.rest);
        if r.Fail? then Fail else Got([c.value] + r.value, r.rest)
  }

  function ReadString(t: seq<byte>): Read<seq<byte>> {
    if t == [] || t[0] != QUOTE then Fail else ReadChars(t[1..])
  }

  predicate IsDigit(b: byte) {
    48 <= b <= 57
  }

  /** How many digits `t` starts with. */
  function Run(t: seq<byte>): (n: nat)
    ensures n <= |t|
  {
    if t == [] || !IsDigit(t[0]) then 0 else 1 + Run(t[1..])
  }

  function Minus48(t: seq<byte>): seq<int> {
    seq(|t|, i requires 0 <= i < |t| => var b: int := t[i]; b - 48)
  }

  function ReadInt(t: seq<byte>): Read<int> {
    var neg := t != [] && t[0] == 45;
    var d := if neg then t[1..] else t;
    var n := Run(d);
    if n == 0 then Fail
    else
      var v := Decimal.Value(Minus48(d[..n]));
      Got(if neg then -v else v, d[n..])
  }

  function ReadValue(t: seq<byte>): Read<JsonLog.Value> {
    if t != [] && t[0] == QUOTE then
      var r := ReadString(t);
      if r.Fail? then Fail else Got(Str(r.value), r.rest)
    else if TRUE <= t then Got(Bool(true), t[|TRUE|..])
    else if FALSE <= t then Got(Bool(false), t[|FALSE|..])
    else
      var r := ReadInt(t);
      if r.Fail? then Fail else Got(Int(r.value), r.rest)
  }

  function ReadField(t: seq<byte>): Read<Field> {
    var k := ReadString(t);
    if k.Fail? || k.rest == [] || k.rest[0] != COLON then Fail
    else
      var v := ReadValue(k.rest[1..]);
      if v.Fail? then Fail else Got(Field(k.value, v.value), v.rest)
  }

  /** Fields up to the closing brace, and the newline after it. */
  function ReadFields(t: seq<byte>): Option<seq<Field>>
    decreases |t|
  {
    var f := ReadField(t);
    if f.Fail? || f.rest == [] then None
    else if f.rest == [CLOSE, NEWLINE] then Some([f.value])
    else if f.rest[0] != COMMA || |f.rest| > |t| then None
    else
      var r := ReadFields(f.rest[1..]);
      if r.None? then None else Some([f.value] + r.value)
  }

  function ReadRecord(t: seq<byte>): Option<seq<Field>> {
    if t == [OPEN, CLOSE, NEWLINE] then Some([])
    else if t == [] || t[0] != OPEN then None
    else ReadFields(t[1..])
  }

  // ---------------------------------------------------------------- reading it back

  lemma EscapeReadsBack(c: byte, rest: seq<byte>)
    ensures ReadChar(Escape(c) + rest) == Got(c, rest)
    ensures Escape(c)[0] != QUOTE
  {
  }

  lemma {:induction false} EscapedFromFront(s: seq<byte>)
    requires s != []
    ensures Escaped(s) == Escape(s[0]) + Escaped(s[1..])
  {
    hide Escape;
    var last := s[|s| - 1];
    if |s| == 1 {
      assert s[..0] == [] && s[1..] == [];
    } else {
      var init := s[..|s| - 1];
      EscapedFromFront(init);
      assert init[1..] == s[1..][..|s| - 2] && s[1..][|s| - 2] == last;
      assert Escaped(s) == Escape(s[0]) + Escaped(init[1..]) + Escape(last);
    }
  }

  /** What is printed whole reads back as what went in, whatever follows it. */
  lemma {:induction false} StringRoundTrip(s: seq<byte>, rest: seq<byte>)
    ensures ReadString(Quoted(s) + rest) == Got(s, rest)
  {
    assert (Quoted(s) + rest)[1..] == Escaped(s) + [QUOTE] + rest;
    CharsRoundTrip(s, rest);
  }

  lemma {:induction false} CharsRoundTrip(s: seq<byte>, rest: seq<byte>)
    ensures ReadChars(Escaped(s) + [QUOTE] + rest) == Got(s, rest)
    decreases |s|
  {
    var t := Escaped(s) + [QUOTE] + rest;
    if s == [] {
      assert t[1..] == rest;
    } else {
      hide Escape, ReadChar;
      EscapedFromFront(s);
      var tail := Escaped(s[1..]) + [QUOTE] + rest;
      assert t == Escape(s[0]) + tail;
      EscapeReadsBack(s[0], tail);
      CharsRoundTrip(s[1..], rest);
      assert [s[0]] + s[1..] == s;
    }
  }

  lemma {:induction false} RunOfDigits(d: seq<int>, rest: seq<byte>)
    requires AreDigits(d) && (rest != [] ==> !IsDigit(rest[0]))
    ensures Run(Printable(d) + rest) == |d|
  {
    var t := Printable(d) + rest;
    if d == [] {
      assert t == rest;
    } else {
      assert t[1..] == Printable(d[1..]) + rest;
      RunOfDigits(d[1..], rest);
    }
  }

  lemma DigitsRoundTrip(n: nat, rest: seq<byte>)
    requires rest != [] ==> !IsDigit(rest[0])
    ensures var u := Printable(Digits(n)) + rest;
            && u[0] != 45 && Run(u) == |Digits(n)| > 0
            && Decimal.Value(Minus48(u[..|Digits(n)|])) == n && u[|Digits(n)|..] == rest
  {
    hide Digits, Run;
    var d := Digits(n);
    var u := Printable(d) + rest;
    RunOfDigits(d, rest);
    ValueOfDigits(n);
    assert u[0] == 48 + d[0];
    assert Minus48(u[..|d|]) == d;
  }

  lemma IntRoundTrip(i: int, rest: seq<byte>)
    requires rest != [] ==> !IsDigit(rest[0])
    ensures ReadInt(Literal(Int(i)) + rest) == Got(i, rest)
  {
    hide Digits, Run, Printable, Minus48;
    var n: nat := if i < 0 then -i else i;
    var u := Printable(Digits(n)) + rest;
    DigitsRoundTrip(n, rest);
    if i < 0 {
      assert (Literal(Int(i)) + rest)[1..] == u;
    } else {
      assert Literal(Int(i)) + rest == u;
    }
  }

  lemma ValueRoundTrip(v: JsonLog.Value, rest: seq<byte>)
    requires rest != [] && !IsDigit(rest[0])
    ensures ReadValue(WholeValue(v) + rest) == Got(v, rest)
  {
    hide ReadString, ReadInt, Digits, Escaped;
    var t := WholeValue(v) + rest;
    match v
    case Str(s) => StringRoundTrip(s, rest);
    case Bool(b) =>
      if b {
        assert t[..4] == TRUE && t[4..] == rest;
      } else {
        assert t[0] == 102 && TRUE[0] == 116;
        assert t[..5] == FALSE && t[5..] == rest;
      }
    case Int(i) =>
      IntRoundTrip(i, rest);
      assert t[0] == 45 || IsDigit(t[0]);
      assert TRUE[0] == 116 && FALSE[0] == 102;
  }

  lemma FieldRoundTrip(f: Field, rest: seq<byte>)
    requires rest != [] && !IsDigit(rest[0])
    ensures ReadField(WholeField(f, false) + rest) == Got(f, rest)
  {
    hide ReadString, ReadValue, Quoted, WholeValue;
    var tail := [COLON] + WholeValue(f.value) + rest;
    assert WholeField(f, false) + rest == Quoted(f.key) + tail;
    StringRoundTrip(f.key, tail);
    assert tail[1..] == WholeValue(f.value) + rest;
    ValueRoundTrip(f.value, rest);
  }

  lemma {:induction false} FieldsRoundTrip(fs: seq<Field>, i: nat)
    requires i < |fs|
    ensures ReadFields(WholeField(fs[i], false) + WholeFrom(fs, i + 1)) == Some(fs[i..])
    decreases |fs| - i
  {
    hide ReadField, WholeField;
    var rest := WholeFrom(fs, i + 1);
    EndsProperly(fs, i + 1);
    FieldRoundTrip(fs[i], rest);
    if i + 1 < |fs| {
      FieldsRoundTrip(fs, i + 1);
      CommaFirst(fs[i + 1], WholeFrom(fs, i + 2));
      assert [fs[i]] + fs[i + 1..] == fs[i..];
    } else {
      assert fs[i..] == [fs[i]];
    }
  }

  lemma CommaFirst(f: Field, rest: seq<byte>)
    ensures WholeField(f, true) + rest == [COMMA] + (WholeField(f, false) + rest)
  {
  }

  lemma EndsProperly(fs: seq<Field>, i: nat)
    requires 0 < i <= |fs|
    ensures WholeFrom(fs, i) != [] && !IsDigit(WholeFrom(fs, i)[0])
    ensures WholeFrom(fs, i)[0] == if i < |fs| then COMMA else CLOSE
  {
  }

  /** A record that was not cut reads back, as JSON, as exactly the fields that were logged. */
  lemma RecordRoundTrip(fs: seq<Field>)
    requires fs != [] && |Whole(fs)| < LINE
    ensures ReadRecord(Record(fs)) == Some(fs)
  {
    hide Record, WholeField, ReadFields;
    WholeIff(fs);
    FieldsRoundTrip(fs, 0);
    assert Whole(fs)[1..] == WholeField(fs[0], false) + WholeFrom(fs, 1);
    StartsWithQuote(fs[0], WholeFrom(fs, 1));
    assert fs[0..] == fs;
  }

  lemma StartsWithQuote(f: Field, rest: seq<byte>)
    ensures (WholeField(f, false) + rest)[0] == QUOTE
  {
  }

  /** What a reader finds under `key`. */
  function Get(fs: seq<Field>, key: seq<byte>): Option<Value> {
    if fs == [] then None else if fs[0].key == key then Some(fs[0].value) else Get(fs[1..], key)
  }

  lemma {:induction false} GetAt(fs: seq<Field>, i: nat)
    requires i < |fs| && forall j :: 0 <= j < i ==> fs[j].key != fs[i].key
    ensures Get(fs, fs[i].key) == Some(fs[i].value)
  {
    if i > 0 {
      assert fs[0].key != fs[i].key;
      GetAt(fs[1..], i - 1);
    }
  }

  /** When, from where, what and by which process; a missing origin reads "core" and a missing message is empty. */
  ghost predicate Tells(read: seq<Field>, ts: seq<byte>, subsys: Option<seq<byte>>, msg: Option<seq<byte>>, pid: int) {
    && Get(read, Bytes("ts")) == Some(Str(ts)) && Get(read, Bytes("pid")) == Some(Int(pid))
    && Get(read, Bytes("subsys")) == Some(Str(if subsys.Some? then subsys.value else Bytes("core")))
    && Get(read, Bytes("msg")) == Some(Str(if msg.Some? then msg.value else []))
  }

  ghost predicate TellsLevel(read: seq<Field>, level: Level) {
    Get(read, Bytes("level"))
    == Some(Str(Bytes(match level case Debug => "debug" case Info => "info" case Warn => "warn" case Error => "error")))
  }

  /** Read back, an uncut record tells all that, how severe it is, and then the fields of the call. */
  lemma EmittedReadsBack(ts: CString, level: Level, subsys: Option<CString>, msg: Option<CString>, pid: int64, kvs: seq<Field>)
    requires |Whole(Header(ts, level, subsys, msg, pid) + kvs)| < LINE
    ensures var read := ReadRecord(Record(Header(ts, level, subsys, msg, pid) + kvs));
            && read.Some? && |read.value| == 5 + |kvs| && read.value[5..] == kvs
            && Tells(read.value, ts, subsys, msg, pid) && TellsLevel(read.value, level)
  {
    var fs := Header(ts, level, subsys, msg, pid) + kvs;
    RecordRoundTrip(fs);
    hide Record, Whole, ReadRecord;
    HeaderTells(ts, level, subsys, msg, pid, kvs);
  }

  lemma HeaderTells(ts: CString, level: Level, subsys: Option<CString>, msg: Option<CString>, pid: int64, kvs: seq<Field>)
    ensures Tells(Header(ts, level, subsys, msg, pid) + kvs, ts, subsys, msg, pid)
    ensures TellsLevel(Header(ts, level, subsys, msg, pid) + kvs, level)
  {
    var fs := Header(ts, level, subsys, msg, pid) + kvs;
    LevelNames(level);
    KeysDiffer();
    hide Bytes, LevelName, Get;
    GetAt(fs, 0);
    GetAt(fs, 1);
    GetAt(fs, 2);
    GetAt(fs, 3);
    GetAt(fs, 4);
  }

  lemma LevelNames(level: Level)
    ensures LevelName(level)
            == Bytes(match level case Debug => "debug" case Info => "info" case Warn => "warn" case Error => "error")
  {
  }

  lemma KeysDiffer()
    ensures |Bytes("ts")| == 2 && |Bytes("level")| == 5 && |Bytes("subsys")| == 6 && |Bytes("msg")| == 3 && |Bytes("pid")| == 3
    ensures Bytes("msg") != Bytes("pid")
  {
    assert Bytes("msg")[0] == 'm' as int && Bytes("pid")[0] == 'p' as int;
  }
}
