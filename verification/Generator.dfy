/** Generated file names, the round-trip marker inside them, and the payload reader. */
module Generator {

  import opened Collections
  import opened Decimal
  import opened Modulo

  // ---------------------------------------------------------------- itoa

  function DigitChar(d: int): char
    requires 0 <= d <= 9
  {
    ('0' as int + d) as char
  }

  function Chars(d: seq<int>): string
    requires AreDigits(d)
  {
    seq(|d|, i requires 0 <= i < |d| => DigitChar(d[i]))
  }

  /** Two's-complement negation: the least value is its own negative. */
  function Negate(n: int64): int64 {
    if n == MIN_INT64 then n else -n
  }

  function Itoa(n: int64): string {
    if n == MIN_INT64 then "-"
    else if n < 0 then "-" + Chars(Digits(-n))
    else Chars(Digits(n))
  }

  function DigitsIfAny(m: int): (d: seq<int>)
    ensures AreDigits(d)
  {
    if m > 0 then Digits(m) else []
  }

  lemma LastDigit(m: int64)
    requires m > 0
    ensures DigitsIfAny(m) == DigitsIfAny(m / 10) + [m % 10]
  {
  }

  lemma CharsBefore(d: int, tail: seq<int>)
    requires 0 <= d <= 9 && AreDigits(tail)
    ensures AreDigits([d] + tail) && Chars([d] + tail) == [DigitChar(d)] + Chars(tail)
  {
  }

  lemma AtMost19(m: int64)
    ensures |DigitsIfAny(m)| <= 19
  {
    if m > 0 {
      Int64Digits(m);
    }
  }

  /** Writes the digits backwards from the end of a 24-byte buffer. */
  method FillDigits(buf: array<char>, n: int64) returns (i: nat)
    requires buf.Length == 24
    modifies buf
    ensures 5 <= i <= 24 && buf[i..] == Chars(DigitsIfAny(n))
  {
    hide Digits, DigitsIfAny, Chars;
    i := 24;
    var m: int64 := n;
    ghost var tail: seq<int> := [];
    AtMost19(n);
    NoDigits(n);
    while m > 0
      invariant AreDigits(tail) && |tail| == 24 - i && i <= 24
      invariant DigitsIfAny(n) == DigitsIfAny(m) + tail
      invariant buf[i..] == Chars(tail)
      decreases m
    {
      LastDigit(m);
      CharsBefore(m % 10, tail);
      ghost var before := buf[i..];
      i := i - 1;
      buf[i] := DigitChar(m % 10);
      assert buf[i..] == [buf[i]] + before;
      tail := [m % 10] + tail;
      m := m / 10;
    }
    NoDigits(m);
    assert [] + tail == tail;
  }

  lemma NoDigits(m: int64)
    ensures m <= 0 ==> DigitsIfAny(m) == []
    ensures Chars([]) == ""
  {
  }

  method ItoaInto(n: int64) returns (text: string)
    ensures text == Itoa(n)
  {
    if n == 0 {
      return "0";
    }
    var buf := new char[24];
    var neg := n < 0;
    var i := FillDigits(buf, if neg then Negate(n) else n);
    if neg {
      ghost var digits := buf[i..];
      i := i - 1;
      buf[i] := '-';
      assert buf[i..] == "-" + digits;
    }
    text := buf[i..];
  }

  function ParseInt(s: string): Option<int> {
    if s != "" && s[0] == '-' then
      var r := ParseNat(s[1..]);
      if r.None? then None else Some(-r.value)
    else ParseNat(s)
  }

  function ParseNat(s: string): Option<int> {
    if s == "" || !('0' <= s[|s| - 1] <= '9') then None
    else
      var d := s[|s| - 1] as int - '0' as int;
      if |s| == 1 then Some(d)
      else
        var r := ParseNat(s[..|s| - 1]);
        if r.None? then None else Some(10 * r.value + d)
  }

  lemma {:induction false} ParseDigits(n: nat)
    ensures ParseNat(Chars(Digits(n))) == Some(n)
  {
    var s := Chars(Digits(n));
    if n >= 10 {
      ParseDigits(n / 10);
      assert s[..|s| - 1] == Chars(Digits(n / 10));
    }
  }

  /** The text reads back as the number for every 64-bit value but the least, whose negation is
      itself and whose text is a lone sign. */
  lemma ItoaRoundTripIff(n: int64)
    ensures ParseInt(Itoa(n)) == Some(n) <==> n != MIN_INT64
  {
    hide Chars, Digits;
    if n == MIN_INT64 {
      assert "-"[1..] == "";
    } else if n < 0 {
      NegativeReads(-n);
    } else {
      ParseDigits(n);
      PositiveReads(n);
    }
  }

  lemma NegativeReads(n: int)
    requires n >= 0
    ensures ParseInt("-" + Chars(Digits(n))) == Some(-n)
  {
    hide Digits, ParseNat, Chars;
    var d := Chars(Digits(n));
    assert ("-" + d)[1..] == d;
    ParseDigits(n);
  }

  lemma PositiveReads(n: nat)
    ensures ParseInt(Chars(Digits(n))) == ParseNat(Chars(Digits(n)))
  {
  }

  // ---------------------------------------------------------------- names

  /** The text from the last '.' after the last '/', or "". */
  function Ext(path: string, i: nat := |path|): string
    requires i <= |path|
  {
    if i == 0 || path[i - 1] == '/' then ""
    else if path[i - 1] == '.' then path[i - 1..]
    else Ext(path, i - 1)
  }

  function TrimSuffix(s: string, suffix: string): string {
    if |suffix| <= |s| && s[|s| - |suffix|..] == suffix then s[..|s| - |suffix|] else s
  }

  function Base(pattern: string): string {
    TrimSuffix(if Ext(pattern) != "" then TrimSuffix(pattern, Ext(pattern)) else pattern, "*")
  }

  function Tail(pattern: string): string {
    if Ext(pattern) == "" then ".txt" else Ext(pattern)
  }

  const MARKER := "_slt_"
  const MARKER_LEN := 12
  const MARKER_END := '_'

  function NameFromPattern(pattern: string, block: string, ts: int64, random: nat): string
    requires random < 0x100_0000
  {
    Base(pattern) + Itoa(ts) + "_" + Itoa(random) + block + Tail(pattern)
  }

  function NameWithMarker(pattern: string, marker: string, ts: int64, random: nat): string
    requires random < 0x100_0000
  {
    NameFromPattern(pattern, if marker == "" then "" else MARKER + marker + [MARKER_END], ts, random)
  }

  /** An extension: a '.' and no other, and no '/'. */
  predicate IsExt(ext: string) {
    ext != "" && ext[0] == '.' && forall i :: 1 <= i < |ext| ==> ext[i] != '.' && ext[i] != '/'
  }

  /** No '.' after the last '/'. */
  ghost predicate HasNoExt(path: string) {
    forall i :: 0 <= i < |path| && path[i] == '.' ==> '/' in path[i..]
  }

  lemma {:induction false} ExtFrom(stem: string, ext: string, i: nat)
    requires IsExt(ext) && |stem| < i <= |stem + ext|
    ensures Ext(stem + ext, i) == ext
  {
    if (stem + ext)[i - 1] != '.' {
      ExtFrom(stem, ext, i - 1);
    } else {
      assert i - 1 == |stem| && (stem + ext)[|stem|..] == ext;
    }
  }

  lemma {:induction false} NoExtFrom(path: string, i: nat)
    requires i <= |path| && HasNoExt(path) && '/' !in path[i..]
    ensures Ext(path, i) == ""
  {
    if i > 0 && path[i - 1] != '/' {
      assert path[i - 1..] == [path[i - 1]] + path[i..];
      NoExtFrom(path, i - 1);
    }
  }

  predicate IsStem(stem: string) {
    stem == "" || stem[|stem| - 1] != '*'
  }

  /** A name keeps its pattern: what stands before a '*' and the extension comes first, and the extension comes last. */
  lemma NameKeepsPattern(stem: string, star: bool, ext: string, block: string, ts: int64, random: nat)
    requires random < 0x100_0000 && IsStem(stem) && IsExt(ext)
    ensures NameFromPattern((if star then stem + "*" else stem) + ext, block, ts, random)
            == stem + Itoa(ts) + "_" + Itoa(random) + block + ext
  {
    hide Itoa, Ext;
    var front := if star then stem + "*" else stem;
    ExtFrom(front, ext, |front + ext|);
    Untrimmed(front, ext);
    StarTrimmed(stem, star);
    hide TrimSuffix;
  }

  /** A pattern without an extension gets ".txt". */
  lemma NameWithoutExt(stem: string, star: bool, block: string, ts: int64, random: nat)
    requires random < 0x100_0000 && IsStem(stem) && HasNoExt(stem)
    ensures NameFromPattern(if star then stem + "*" else stem, block, ts, random)
            == stem + Itoa(ts) + "_" + Itoa(random) + block + ".txt"
  {
    hide Itoa;
    var front := if star then stem + "*" else stem;
    forall i | 0 <= i < |front| && front[i] == '.' ensures '/' in front[i..] {
      assert front[i..] == stem[i..] + if star then "*" else "";
    }
    NoExtFrom(front, |front|);
    StarTrimmed(stem, star);
    hide TrimSuffix, HasNoExt;
  }

  lemma Untrimmed(front: string, suffix: string)
    ensures TrimSuffix(front + suffix, suffix) == front
  {
    assert (front + suffix)[..|front|] == front && (front + suffix)[|front|..] == suffix;
  }

  lemma StarTrimmed(stem: string, star: bool)
    requires IsStem(stem)
    ensures TrimSuffix(if star then stem + "*" else stem, "*") == stem
  {
    if star {
      Untrimmed(stem, "*");
    } else if stem != "" {
      assert stem[|stem| - 1..][0] != '*';
    }
  }

  lemma {:induction false} DigitsHaveNoBar(n: nat)
    ensures forall i :: 0 <= i < |Chars(Digits(n))| ==> Chars(Digits(n))[i] != '_'
  {
  }

  /** Two names made from one pattern are the same only if they were made at the same time with the same random
      number. */
  lemma SameNameIff(pattern: string, block: string, ts: int64, random: nat, ts2: int64, random2: nat)
    requires random < 0x100_0000 && random2 < 0x100_0000
    ensures NameFromPattern(pattern, block, ts, random) == NameFromPattern(pattern, block, ts2, random2)
            <==> ts == ts2 && random == random2
  {
    hide Base, Tail, Itoa, ParseInt;
    if NameFromPattern(pattern, block, ts, random) == NameFromPattern(pattern, block, ts2, random2) {
      var a, b := Itoa(ts) + "_" + Itoa(random), Itoa(ts2) + "_" + Itoa(random2);
      var front, back := Base(pattern), block + Tail(pattern);
      assert NameFromPattern(pattern, block, ts, random) == front + a + back;
      assert NameFromPattern(pattern, block, ts2, random2) == front + b + back;
      Around(front, a, b, back);
      ItoaHasNoBar(ts);
      ItoaHasNoBar(ts2);
      FirstSplit(Itoa(ts), Itoa(random), Itoa(ts2), Itoa(random2), '_');
      SameItoa(ts, ts2);
      SameItoa(random, random2);
    }
  }

  lemma Around(front: string, a: string, b: string, back: string)
    requires front + a + back == front + b + back
    ensures a == b
  {
    assert (front + a + back)[|front|..|front + a + back| - |back|] == a;
    assert (front + b + back)[|front|..|front + b + back| - |back|] == b;
  }

  lemma ItoaHasNoBar(n: int64)
    ensures '_' !in Itoa(n)
  {
    hide Digits, Chars;
    var m: int := n;
    DigitsHaveNoBar(if m < 0 then -m else m);
  }

  lemma SameItoa(a: int64, b: int64)
    requires Itoa(a) == Itoa(b)
    ensures a == b
  {
    ItoaRoundTripIff(a);
    ItoaRoundTripIff(b);
  }

  /** Letters beyond ASCII are left alone. */
  function LowerChar(c: char): char {
    if 'A' <= c <= 'Z' then (c as int + 32) as char else c
  }

  function Lower(s: string): string {
    seq(|s|, i requires 0 <= i < |s| => LowerChar(s[i]))
  }

  /** The same letter, be it upper or lower case. */
  predicate SameLetter(c: char, d: char) {
    || c == d
    || ('a' <= c <= 'z' && d as int == 'A' as int + (c as int - 'a' as int))
    || ('a' <= d <= 'z' && c as int == 'A' as int + (d as int - 'a' as int))
  }

  ghost predicate OnlyCaseDiffers(a: string, b: string) {
    |a| == |b| && forall i :: 0 <= i < |a| ==> SameLetter(a[i], b[i])
  }

  /** Lowering forgets the case of letters and nothing else. */
  lemma CaseIsLowered(a: string, b: string)
    ensures Lower(a) == Lower(b) <==> OnlyCaseDiffers(a, b)
  {
    forall c, d ensures LowerChar(c) == LowerChar(d) <==> SameLetter(c, d) {
    }
    if Lower(a) == Lower(b) {
      assert |Lower(a)| == |Lower(b)|;
      forall i | 0 <= i < |a| ensures SameLetter(a[i], b[i]) {
        assert Lower(a)[i] == Lower(b)[i];
      }
    }
  }

  predicate At(s: string, word: string, i: int) {
    0 <= i <= |s| - |word| && s[i..i + |word|] == word
  }

  ghost predicate FirstAt(s: string, word: string, i: int) {
    At(s, word, i) && forall j :: 0 <= j < i ==> !At(s, word, j)
  }

  predicate Alnum(c: char) {
    'a' <= c <= 'z' || '0' <= c <= '9'
  }

  predicate IsToken(s: string) {
    |s| == MARKER_LEN && forall i :: 0 <= i < |s| ==> Alnum(s[i])
  }

  const ALPHABET := "abcdefghijklmnopqrstuvwxyz0123456789"

  /** The token made of twelve random bytes. */
  function TokenOf(bytes: seq<nat>): string {
    seq(|bytes|, i requires 0 <= i < |bytes| => ALPHABET[bytes[i] % |ALPHABET|])
  }

  lemma DrawnIsToken(bytes: seq<nat>)
    requires |bytes| == 12
    ensures IsToken(TokenOf(bytes))
  {
    InAlphabet();
    hide Alnum, ALPHABET;
  }

  lemma TokenIsDrawn(s: string) returns (bytes: seq<nat>)
    requires IsToken(s)
    ensures |bytes| == 12 && TokenOf(bytes) == s
  {
    InAlphabet();
    hide Alnum, ALPHABET, PlaceOf;
    bytes := seq(|s|, i requires 0 <= i < |s| => PlaceOf(s[i]));
    forall i | 0 <= i < |s| ensures TokenOf(bytes)[i] == s[i] {
      Divided(0, PlaceOf(s[i]), 36);
    }
  }

  /** What is taken for a token is exactly what can be drawn as one. */
  lemma TokensAreThoseDrawn(s: string)
    ensures IsToken(s) <==> exists bytes: seq<nat> :: |bytes| == 12 && TokenOf(bytes) == s
  {
    hide IsToken, TokenOf;
    if IsToken(s) {
      var bytes := TokenIsDrawn(s);
    }
    if bytes: seq<nat> :| |bytes| == 12 && TokenOf(bytes) == s {
      DrawnIsToken(bytes);
    }
  }

  function PlaceOf(c: char): nat {
    if 'a' <= c <= 'z' then c as int - 'a' as int else if '0' <= c <= '9' then 26 + (c as int - '0' as int) else 0
  }

  lemma InAlphabet()
    ensures |ALPHABET| == 36
    ensures forall i :: 0 <= i < 36 ==> Alnum(ALPHABET[i])
    ensures forall c :: Alnum(c) ==> PlaceOf(c) < 36 && ALPHABET[PlaceOf(c)] == c
  {
  }

  method Index(s: string, word: string) returns (i: int)
    ensures i == -1 || FirstAt(s, word, i)
    ensures i == -1 ==> forall j :: !At(s, word, j)
  {
    i := 0;
    while i <= |s| - |word|
      invariant 0 <= i && forall j :: 0 <= j < i ==> !At(s, word, j)
    {
      if s[i..i + |word|] == word {
        return;
      }
      i := i + 1;
    }
    return -1;
  }

  /** The token the first marker of a lower-cased name introduces. */
  ghost predicate Introduces(low: string, token: string) {
    exists i :: FirstAt(low, MARKER, i) && IsToken(token) && At(low, token + [MARKER_END], i + |MARKER|)
  }

  method ExtractMarker(filename: string) returns (token: Option<string>)
    ensures forall t :: token == Some(t) <==> Introduces(Lower(filename), t)
  {
    var low := Lower(filename);
    var i := Index(low, MARKER);
    if i < 0 {
      return None;
    }
    var start := i + |MARKER|;
    forall t | Introduces(low, t) ensures IsToken(t) && At(low, t + [MARKER_END], start) {
      var k :| FirstAt(low, MARKER, k) && IsToken(t) && At(low, t + [MARKER_END], k + |MARKER|);
      OneFirst(low, MARKER, i, k);
    }
    if start + MARKER_LEN > |low| {
      return None;
    }
    var candidate := low[start..start + MARKER_LEN];
    forall t | Introduces(low, t) ensures t == candidate && start + MARKER_LEN < |low| && low[start + MARKER_LEN] == MARKER_END {
      assert low[start..start + |t + [MARKER_END]|] == t + [MARKER_END];
      assert candidate == low[start..start + |t + [MARKER_END]|][..MARKER_LEN];
      assert low[start + MARKER_LEN] == (t + [MARKER_END])[MARKER_LEN];
    }
    if start + MARKER_LEN >= |low| || low[start + MARKER_LEN] != MARKER_END {
      return None;
    }
    for k := 0 to |candidate|
      invariant forall j :: 0 <= j < k ==> Alnum(candidate[j])
    {
      if !Alnum(candidate[k]) {
        return None;
      }
    }
    assert low[start..start + MARKER_LEN + 1] == candidate + [MARKER_END];
    assert Introduces(low, candidate);
    return Some(candidate);
  }

  lemma OneFirst(s: string, word: string, i: int, k: int)
    requires FirstAt(s, word, i) && FirstAt(s, word, k)
    ensures i == k
  {
  }

  // ---------------------------------------------------------------- the marker survives

  predicate NumberChar(c: char) {
    c == '-' || '0' <= c <= '9'
  }

  lemma ItoaChars(n: int64)
    ensures Itoa(n) != "" && forall i :: 0 <= i < |Itoa(n)| ==> NumberChar(Itoa(n)[i])
  {
  }

  lemma LowerParts(a: string, b: string)
    ensures Lower(a + b) == Lower(a) + Lower(b)
  {
  }

  /** In `front + num + "_" + num2 + MARKER + ...` the first marker is the one after the numbers, unless
      `front` holds one: no marker can run over the edge of a number or start inside one. */
  lemma FirstMarkerAfterNumbers(front: string, num: string, num2: string, rest: string)
    requires num != "" && num2 != ""
    requires forall i :: 0 <= i < |num| ==> NumberChar(num[i])
    requires forall i :: 0 <= i < |num2| ==> NumberChar(num2[i])
    requires forall j :: !At(front, MARKER, j)
    ensures FirstAt(front + num + "_" + num2 + MARKER + rest, MARKER, |front| + |num| + 1 + |num2|)
  {
    var low := front + num + "_" + num2 + MARKER + rest;
    var at := |front| + |num| + 1 + |num2|;
    assert low[at..at + 5] == MARKER;
    forall j | 0 <= j < at ensures !At(low, MARKER, j) {
      if j + 5 <= |front| {
        assert !At(front, MARKER, j);
        assert low[j..j + 5] == front[j..j + 5];
      } else if j < |front| {
        assert low[|front|] == num[0];
        Differs(low, j, |front| - j);
      } else if j < |front| + |num| {
        assert low[j] == num[j - |front|];
        Differs(low, j, 0);
      } else if j == |front| + |num| {
        assert low[j + 1] == num2[0];
        Differs(low, j, 1);
      } else {
        assert low[j] == num2[j - |front| - |num| - 1];
        Differs(low, j, 0);
      }
    }
  }

  lemma Differs(low: string, j: nat, d: nat)
    requires d < 5 && j + d < |low| && NumberChar(low[j + d])
    ensures !At(low, MARKER, j)
  {
    if j + 5 <= |low| {
      assert low[j..j + 5][d] == low[j + d];
    }
  }

  /** The token injected into a generated name comes back out of it, whatever the server put before
      and after it and however it changed the letters' case, provided what stands before the numbers
      holds no marker of its own. */
  lemma MarkerRecovered(before: string, pattern: string, token: string, ts: int64, random: nat, after: string, seen: string)
    requires random < 0x100_0000 && IsToken(token)
    requires OnlyCaseDiffers(seen, before + NameWithMarker(pattern, token, ts, random) + after)
    requires forall j :: !At(Lower(before + Base(pattern)), MARKER, j)
    ensures forall t :: Introduces(Lower(seen), t) <==> t == token
  {
    hide Itoa, Base, Tail, Lower, FirstAt, OnlyCaseDiffers;
    CaseIsLowered(seen, before + NameWithMarker(pattern, token, ts, random) + after);
    var front := before + Base(pattern);
    var num, num2, rest := Itoa(ts), Itoa(random), token + [MARKER_END] + (Tail(pattern) + after);
    ItoaChars(ts);
    ItoaChars(random);
    NameInParts(before, pattern, token, ts, random, after);
    var low := Lower(front) + num + "_" + num2 + MARKER + (token + [MARKER_END] + Lower(Tail(pattern) + after));
    LowerName(front, num, num2, token, Tail(pattern) + after);
    assert Lower(seen) == low;
    FirstMarkerAfterNumbers(Lower(front), num, num2, token + [MARKER_END] + Lower(Tail(pattern) + after));
    var at := |Lower(front)| + |num| + 1 + |num2|;
    assert At(low, token + [MARKER_END], at + 5);
    forall t | Introduces(low, t) ensures t == token {
      var i :| FirstAt(low, MARKER, i) && IsToken(t) && At(low, t + [MARKER_END], i + |MARKER|);
      OneFirst(low, MARKER, i, at);
      assert low[at + 5..at + 18] == t + [MARKER_END] && low[at + 5..at + 18] == token + [MARKER_END];
      assert t == (t + [MARKER_END])[..12] && token == (token + [MARKER_END])[..12];
    }
  }

  lemma NameInParts(before: string, pattern: string, token: string, ts: int64, random: nat, after: string)
    requires random < 0x100_0000 && IsToken(token)
    ensures before + NameWithMarker(pattern, token, ts, random) + after
            == (before + Base(pattern)) + Itoa(ts) + "_" + Itoa(random) + MARKER + (token + [MARKER_END] + (Tail(pattern) + after))
  {
    hide Itoa, Base, Tail;
    var a, b, c, d := Base(pattern), Itoa(ts), Itoa(random), Tail(pattern);
    assert NameWithMarker(pattern, token, ts, random) == a + b + "_" + c + (MARKER + token + [MARKER_END]) + d;
    assert before + (a + b + "_" + c + (MARKER + token + [MARKER_END]) + d) + after
           == (before + a) + b + "_" + c + MARKER + (token + [MARKER_END] + (d + after));
  }

  lemma LowerName(front: string, num: string, num2: string, token: string, end: string)
    requires IsToken(token)
    requires forall i :: 0 <= i < |num| ==> NumberChar(num[i])
    requires forall i :: 0 <= i < |num2| ==> NumberChar(num2[i])
    ensures Lower(front + num + "_" + num2 + MARKER + (token + [MARKER_END] + end))
            == Lower(front) + num + "_" + num2 + MARKER + (token + [MARKER_END] + Lower(end))
  {
  }

  lemma {:induction false} FirstExists(s: string, word: string, j: nat)
    requires At(s, word, j)
    ensures exists i :: FirstAt(s, word, i)
  {
    if i: nat :| i < j && At(s, word, i) {
      FirstExists(s, word, i);
    } else {
      assert FirstAt(s, word, j);
    }
  }

  lemma FirstInFront(front: string, rest: string, word: string, i: int)
    requires FirstAt(front, word, i)
    ensures FirstAt(front + rest, word, i)
  {
    var s := front + rest;
    assert s[i..i + |word|] == front[i..i + |word|];
    forall j | 0 <= j < i ensures !At(s, word, j) {
      assert !At(front, word, j);
      assert s[j..j + |word|] == front[j..j + |word|];
    }
  }

  /** Exactly when the token comes back: the text before the numbers holds no marker, or its first
      marker happens to introduce the very same token. */
  lemma MarkerRecoveredIff(before: string, pattern: string, token: string, ts: int64, random: nat, after: string, seen: string)
    requires random < 0x100_0000 && IsToken(token)
    requires OnlyCaseDiffers(seen, before + NameWithMarker(pattern, token, ts, random) + after)
    ensures Introduces(Lower(seen), token) <==>
              || (forall j :: !At(Lower(before + Base(pattern)), MARKER, j))
              || (exists i :: FirstAt(Lower(before + Base(pattern)), MARKER, i)
                              && At(Lower(seen), token + [MARKER_END], i + |MARKER|))
  {
    hide Itoa, Base, Tail, Lower, FirstAt, IsToken, OnlyCaseDiffers, Introduces;
    CaseIsLowered(seen, before + NameWithMarker(pattern, token, ts, random) + after);
    var front := before + Base(pattern);
    if j :| At(Lower(front), MARKER, j) {
      NameInParts(before, pattern, token, ts, random, after);
      var rest := Itoa(ts) + "_" + Itoa(random) + MARKER + (token + [MARKER_END] + (Tail(pattern) + after));
      assert before + NameWithMarker(pattern, token, ts, random) + after == front + rest;
      LowerParts(front, rest);
      FirstExists(Lower(front), MARKER, j);
      FrontDecides(Lower(front), Lower(rest), token);
    } else {
      MarkerRecovered(before, pattern, token, ts, random, after, seen);
    }
  }

  /** When the text in front holds a marker, its first one decides. */
  lemma FrontDecides(front: string, rest: string, token: string)
    requires IsToken(token) && exists i :: FirstAt(front, MARKER, i)
    ensures Introduces(front + rest, token)
            <==> exists i :: FirstAt(front, MARKER, i) && At(front + rest, token + [MARKER_END], i + |MARKER|)
  {
    hide FirstAt, IsToken, At;
    var i :| FirstAt(front, MARKER, i);
    FirstInFront(front, rest, MARKER, i);
    if k :| FirstAt(front + rest, MARKER, k) && IsToken(token) && At(front + rest, token + [MARKER_END], k + |MARKER|) {
      OneFirst(front + rest, MARKER, i, k);
    }
    if k :| FirstAt(front, MARKER, k) && At(front + rest, token + [MARKER_END], k + |MARKER|) {
      OneFirst(front, MARKER, i, k);
    }
  }

  // ---------------------------------------------------------------- payload

  /** The endless repetition of `src`, cut after `n` bytes. */
  function Stream(src: seq<int>, n: nat): seq<int>
    requires |src| > 0
  {
    seq(n, i requires 0 <= i < n => src[i % |src|])
  }

  class FastReader {
    const src: seq<int>
    const size: int
    var remaining: int
    var pos: nat
    ghost var produced: seq<int>

    ghost predicate Valid()
      reads this
    {
      && |src| > 0 && pos < |src|
      && pos == |produced| % |src|
      && produced == Stream(src, |produced|)
      && remaining == size - |produced|
    }

    constructor (src: seq<int>, size: int)
      requires |src| > 0
      ensures Valid() && produced == [] && this.src == src && this.size == size
    {
      this.src, this.size := src, size;
      remaining, pos, produced := size, 0, [];
    }

    /** Whatever sizes are asked for, the reads together are the first `size` bytes of the repeated
        source, each read as full as it can be. */
    method Read(p: array<int>) returns (n: nat, eof: bool)
      requires Valid()
      modifies this, p
      ensures Valid()
      ensures eof <==> |old(produced)| >= size
      ensures n == if eof then 0 else if p.Length <= size - |old(produced)| then p.Length else size - |old(produced)|
      ensures produced == old(produced) + p[..n] && p[n..] == old(p[n..])
    {
      if remaining <= 0 {
        return 0, true;
      }
      hide Stream;
      n := p.Length;
      if n > remaining {
        n := remaining;
      }
      pos := Fill(p, n, src, pos, |produced|);
      StreamInTwo(src, |produced|, p[..n]);
      remaining := remaining - n;
      produced := produced + p[..n];
      return n, false;
    }
  }

  /** Copies `want` bytes of the repeated source, starting at its byte number `from`. */
  method Fill(p: array<int>, want: nat, src: seq<int>, start: nat, ghost from: nat) returns (pos: nat)
    requires want <= p.Length && |src| > 0 && start == from % |src|
    modifies p
    ensures pos == (from + want) % |src|
    ensures Stream(src, from) + p[..want] == Stream(src, from + want)
    ensures p[want..] == old(p[want..])
  {
    hide Stream;
    var written: nat := 0;
    pos := start;
    while written < want
      invariant written <= want
      invariant pos == (from + written) % |src|
      invariant Stream(src, from) + p[..written] == Stream(src, from + written)
      invariant p[want..] == old(p[want..])
    {
      var k: nat := if want - written <= |src| - pos then want - written else |src| - pos;
      ghost var before := p[..written];
      Copy(p, written, src[pos..pos + k]);
      StreamGrows(src, from + written, k);
      assert p[..written + k] == before + src[pos..pos + k];
      assert Stream(src, from) + (before + src[pos..pos + k]) == (Stream(src, from) + before) + src[pos..pos + k];
      written := written + k;
      pos := pos + k;
      if pos >= |src| {
        pos := 0;
      }
    }
  }

  lemma StreamInTwo(src: seq<int>, n: nat, more: seq<int>)
    requires |src| > 0 && Stream(src, n) + more == Stream(src, n + |more|)
    ensures |Stream(src, n) + more| == n + |more|
  {
  }

  method Copy(p: array<int>, at: nat, bytes: seq<int>)
    requires at + |bytes| <= p.Length
    modifies p
    ensures p[at..at + |bytes|] == bytes && p[..at] == old(p[..at]) && p[at + |bytes|..] == old(p[at + |bytes|..])
  {
    forall i | 0 <= i < |bytes| {
      p[at + i] := bytes[i];
    }
  }

  lemma StreamGrows(src: seq<int>, n: nat, k: nat)
    requires |src| > 0 && n % |src| + k <= |src|
    ensures Stream(src, n + k) == Stream(src, n) + src[n % |src|..n % |src| + k]
    ensures (n + k) % |src| == if n % |src| + k == |src| then 0 else n % |src| + k
  {
    Onward(n, k, |src|);
    var longer, extended := Stream(src, n + k), Stream(src, n) + src[n % |src|..n % |src| + k];
    forall i | 0 <= i < n + k ensures longer[i] == extended[i] {
      if i >= n {
        Onward(n, i - n, |src|);
      }
    }
  }
}
