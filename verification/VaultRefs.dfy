/** Markers for credentials kept in the vault, and their resolution. */
module VaultRefs {

  const PREFIX := "$vault:"

  type Row = seq<string>

  /** A CSV body: the rows read before the first malformed one, and the text from there on. */
  datatype Csv = Csv(rows: seq<Row>, rest: string)

  predicate Empty(body: Csv) {
    body.rows == [] && body.rest == ""
  }

  predicate IsRef(s: string) {
    PREFIX <= s
  }

  function MakeRef(namespace: string, key: string): string {
    PREFIX + namespace + ":" + key
  }

  function RefKey(s: string): string
    requires IsRef(s)
  {
    s[|PREFIX|..]
  }

  /** The marker for a key that already holds its namespace: split at the first colon. */
  function Marker(key: string, i: nat := 0): string
    requires i <= |key|
    decreases |key| - i
  {
    if i == |key| then MakeRef("", key)
    else if key[i] == ':' then MakeRef(key[..i], key[i + 1..])
    else Marker(key, i + 1)
  }

  lemma {:induction false} MarkerFrom(key: string, i: nat)
    requires i <= |key|
    ensures Marker(key, i) == if ':' in key[i..] then PREFIX + key else PREFIX + ":" + key
    decreases |key| - i
  {
    if i < |key| {
      if key[i] == ':' {
        assert key[i..][0] == ':';
        assert key == key[..i] + ":" + key[i + 1..];
        assert MakeRef(key[..i], key[i + 1..]) == PREFIX + (key[..i] + ":" + key[i + 1..]);
      } else {
        assert key[i..] == [key[i]] + key[i + 1..];
        MarkerFrom(key, i + 1);
      }
    } else {
      assert MakeRef("", key) == PREFIX + ":" + key;
    }
  }

  /** A marker leads back to the key it was made from exactly when that key holds a colon. */
  lemma MarkerLeadsBack(key: string)
    ensures IsRef(Marker(key))
    ensures RefKey(Marker(key)) == key <==> ':' in key
  {
    MarkerFrom(key, 0);
    assert key[0..] == key;
    if ':' in key {
      assert RefKey(PREFIX + key) == key;
    } else {
      assert PREFIX + ":" + key == PREFIX + (":" + key);
      assert RefKey(PREFIX + (":" + key)) == ":" + key;
      assert |":" + key| != |key|;
    }
  }

  function Resolved(s: string, secrets: map<string, string>): string {
    if IsRef(s) && RefKey(s) in secrets then secrets[RefKey(s)] else s
  }

  /** The resolver's three results. */
  function ResolveString(s: string, secrets: map<string, string>): (r: (string, bool, bool))
    ensures r.0 == Resolved(s, secrets)
    ensures r.1 <==> IsRef(s)
    ensures r.2 <==> r.1 && RefKey(s) in secrets
  {
    if !IsRef(s) then (s, false, false)
    else if RefKey(s) !in secrets then (s, true, false)
    else (secrets[RefKey(s)], true, true)
  }

  function ResolvedRow(row: Row, secrets: map<string, string>): Row {
    if |row| >= 2 then row[1 := Resolved(row[1], secrets)] else row
  }

  function ResolvedCsv(body: Csv, secrets: map<string, string>): Csv {
    if Empty(body) then body
    else Csv(seq(|body.rows|, i requires 0 <= i < |body.rows| => ResolvedRow(body.rows[i], secrets)), "")
  }

  // ---------------------------------------------------------------- what a resolved value is

  /** What a run should get for a stored value: a plaintext as it is, a marker the secret under its key, or the
      marker itself when there is none. */
  ghost predicate Meant(was: string, secrets: map<string, string>, got: string) {
    && (!(PREFIX <= was) ==> got == was)
    && (forall key :: was == PREFIX + key ==> got == if key in secrets then secrets[key] else was)
  }

  ghost predicate RowMeant(was: Row, secrets: map<string, string>, got: Row) {
    && |got| == |was|
    && forall c :: 0 <= c < |was| ==> if c == 1 then Meant(was[c], secrets, got[c]) else got[c] == was[c]
  }

  /** Row for row, and what could not be read is dropped. */
  ghost predicate CsvMeant(was: Csv, secrets: map<string, string>, got: Csv) {
    && |got.rows| == |was.rows| && got.rest == ""
    && forall i :: 0 <= i < |was.rows| ==> RowMeant(was.rows[i], secrets, got.rows[i])
  }

  lemma ResolvedIsMeant(was: string, secrets: map<string, string>, got: string)
    ensures Meant(was, secrets, got) <==> got == Resolved(was, secrets)
  {
    if IsRef(was) {
      assert was == PREFIX + RefKey(was);
      forall key | was == PREFIX + key ensures key == RefKey(was) {
        assert (PREFIX + key)[|PREFIX|..] == key;
      }
    }
  }

  lemma ResolvedRowIsMeant(was: Row, secrets: map<string, string>, got: Row)
    ensures RowMeant(was, secrets, got) <==> got == ResolvedRow(was, secrets)
  {
    hide Meant, Resolved;
    if |was| >= 2 && |got| >= 2 {
      ResolvedIsMeant(was[1], secrets, got[1]);
    }
  }

  lemma ResolvedCsvIsMeant(was: Csv, secrets: map<string, string>, got: Csv)
    ensures CsvMeant(was, secrets, got) <==> got == ResolvedCsv(was, secrets)
  {
    hide RowMeant, ResolvedRow;
    forall i | 0 <= i < |was.rows| && i < |got.rows|
      ensures RowMeant(was.rows[i], secrets, got.rows[i]) <==> got.rows[i] == ResolvedRow(was.rows[i], secrets)
    {
      ResolvedRowIsMeant(was.rows[i], secrets, got.rows[i]);
    }
    if CsvMeant(was, secrets, got) {
      assert got.rows == ResolvedCsv(was, secrets).rows;
    }
  }

  method ResolveCSV(input: Csv, secrets: map<string, string>) returns (out: Csv)
    ensures out == ResolvedCsv(input, secrets) && CsvMeant(input, secrets, out)
  {
    ResolvedCsvIsMeant(input, secrets, ResolvedCsv(input, secrets));
    hide CsvMeant;
    if Empty(input) {
      return input;
    }
    var written: seq<Row> := [];
    for n := 0 to |input.rows|
      invariant |written| == n
      invariant forall i :: 0 <= i < n ==> written[i] == ResolvedRow(input.rows[i], secrets)
    {
      var row := input.rows[n];
      if |row| >= 2 {
        var (resolved, isRef, found) := ResolveString(row[1], secrets);
        if isRef && found {
          row := row[1 := resolved];
        }
      }
      written := written + [row];
    }
    out := Csv(written, "");
  }
}
