/**
 The audio parameter strings of the HAL: `ParseAudioParams`
 (system/audio_bluetooth_hw/utils.cc) and the printing loop of `out_get_parameters`
 (system/audio_bluetooth_hw/stream_apis.cc).
 */
module AudioParams {

  /** `android::base::Split` at a single delimiter: one piece more than there are delimiters. */
  function Split(s: string, c: char): (pieces: seq<string>)
    ensures |pieces| >= 1
  {
    if s == [] then [""]
    else
      var rest := Split(s[1..], c);
      if s[0] == c then [""] + rest else [[s[0]] + rest[0]] + rest[1..]
  }

  /** What one segment contributes: its text before the first '=' mapped to the text between the
      first and the second, or nothing if there is no key. */
  function Binding(segment: string): map<string, string> {
    var kv := Split(segment, '=');
    if segment == "" || kv[0] == "" then map[] else map[kv[0] := if |kv| > 1 then kv[1] else ""]
  }

  /** The bindings of the segments, a later one overriding an earlier one. */
  function Bindings(segments: seq<string>): map<string, string> {
    if segments == [] then map[]
    else Bindings(segments[..|segments| - 1]) + Binding(segments[|segments| - 1])
  }

  function Parsed(params: string): map<string, string> {
    Bindings(Split(params, ';'))
  }

  method ParseAudioParams(params: string) returns (paramsMap: map<string, string>)
    ensures paramsMap == Parsed(params)
  {
    hide Split, Bindings;
    var segments := Split(params, ';');
    paramsMap := map[];
    NoBindings(segments);
    for i := 0 to |segments|
      invariant paramsMap == Bindings(segments[..i])
    {
      var segment := segments[i];
      BindingsSnoc(segments, i);
      if |segment| == 0 {
        continue;
      }
      var kv := Split(segment, '=');
      if kv[0] == "" {
        continue;
      }
      paramsMap := paramsMap[kv[0] := if |kv| > 1 then kv[1] else ""];
    }
    assert segments[..|segments|] == segments;
  }

  lemma NoBindings(segments: seq<string>)
    ensures Bindings(segments[..0]) == map[]
  {
  }

  /** The binding of one more segment overrides those before it. */
  lemma BindingsSnoc(segments: seq<string>, i: nat)
    requires i < |segments|
    ensures Bindings(segments[..i + 1]) == Bindings(segments[..i]) + Binding(segments[i])
  {
    assert segments[..i + 1][..i] == segments[..i];
  }

  // ----- concatenation

  lemma {:induction false} SplitConcat(a: string, c: char, b: string)
    ensures Split(a + [c] + b, c) == Split(a, c) + Split(b, c)
  {
    if a == [] {
      assert (a + [c] + b)[1..] == b;
    } else {
      assert (a + [c] + b)[1..] == a[1..] + [c] + b;
      SplitConcat(a[1..], c, b);
    }
  }

  lemma OverrideAssociates(a: map<string, string>, b: map<string, string>, c: map<string, string>)
    ensures a + b + c == a + (b + c)
  {
  }

  lemma {:induction false} BindingsConcat(x: seq<string>, y: seq<string>)
    ensures Bindings(x + y) == Bindings(x) + Bindings(y)
  {
    hide Binding;
    if y == [] {
      assert x + y == x;
      assert Bindings(x) + map[] == Bindings(x);
    } else {
      var front, last := y[..|y| - 1], y[|y| - 1];
      assert (x + y)[..|x + y| - 1] == x + front;
      BindingsConcat(x, front);
      OverrideAssociates(Bindings(x), Bindings(front), Binding(last));
    }
  }

  /** Parsing two strings joined by ';' is parsing the first, overridden by parsing the second. */
  lemma ParseConcat(a: string, b: string)
    ensures Parsed(a + ";" + b) == Parsed(a) + Parsed(b)
  {
    SplitConcat(a, ';', b);
    BindingsConcat(Split(a, ';'), Split(b, ';'));
  }

  // ----- what a parsed map can contain

  predicate CleanText(s: string) {
    ';' !in s && '=' !in s
  }

  predicate CleanMap(m: map<string, string>) {
    forall k :: k in m ==> k != "" && CleanText(k) && CleanText(m[k])
  }

  lemma {:induction false} PiecesAvoid(s: string, c: char, d: char)
    ensures forall i :: 0 <= i < |Split(s, c)| ==>
              c !in Split(s, c)[i] && (d !in s ==> d !in Split(s, c)[i])
  {
    if s != [] {
      PiecesAvoid(s[1..], c, d);
    }
  }

  lemma BindingClean(segment: string)
    requires ';' !in segment
    ensures CleanMap(Binding(segment))
  {
    PiecesAvoid(segment, '=', ';');
  }

  lemma {:induction false} BindingsClean(segments: seq<string>)
    requires forall i :: 0 <= i < |segments| ==> ';' !in segments[i]
    ensures CleanMap(Bindings(segments))
  {
    if segments != [] {
      BindingsClean(segments[..|segments| - 1]);
      BindingClean(segments[|segments| - 1]);
    }
  }

  /** Whatever the string, no parsed key or value contains a delimiter and no key is empty. */
  lemma ParsedIsClean(params: string)
    ensures CleanMap(Parsed(params))
  {
    PiecesAvoid(params, ';', ';');
    BindingsClean(Split(params, ';'));
  }

  // ----- printing

  datatype Entry = Entry(key: string, val: string)

  function Printed(entries: seq<Entry>): string {
    if entries == [] then ""
    else entries[0].key + "=" + entries[0].val + ";" + Printed(entries[1..])
  }

  /** The printing loop over the map in the order it is iterated. */
  method PrintParams(entries: seq<Entry>) returns (result: string)
    ensures result == Printed(entries)
  {
    result := "";
    for i := 0 to |entries|
      invariant result + Printed(entries[i..]) == Printed(entries)
    {
      var next := entries[i].key + "=" + entries[i].val + ";";
      assert entries[i..][1..] == entries[i + 1..];
      assert result + (next + Printed(entries[i + 1..])) == (result + next) + Printed(entries[i + 1..]);
      result := result + next;
    }
    assert entries[|entries|..] == [];
  }

  function FromEntries(entries: seq<Entry>): map<string, string> {
    if entries == [] then map[] else map[entries[0].key := entries[0].val] + FromEntries(entries[1..])
  }

  predicate CleanEntries(entries: seq<Entry>) {
    forall i :: 0 <= i < |entries| ==> entries[i].key != "" && CleanText(entries[i].key) && CleanText(entries[i].val)
  }

  lemma {:induction false} SplitClean(s: string, c: char)
    requires c !in s
    ensures Split(s, c) == [s]
  {
    if s != [] {
      SplitClean(s[1..], c);
      assert [s[0]] + s[1..] == s;
    }
  }

  lemma EntryBinding(e: Entry)
    requires e.key != "" && CleanText(e.key) && CleanText(e.val)
    ensures Split(e.key + "=" + e.val, ';') == [e.key + "=" + e.val]
    ensures Binding(e.key + "=" + e.val) == map[e.key := e.val]
  {
    SplitClean(e.key + "=" + e.val, ';');
    SplitConcat(e.key, '=', e.val);
    SplitClean(e.key, '=');
    SplitClean(e.val, '=');
  }

  lemma EmptyBinding()
    ensures Binding("") == map[]
  {
  }

  lemma ParseSingle(text: string)
    requires ';' !in text
    ensures Parsed(text) == Binding(text)
  {
    hide Binding;
    SplitClean(text, ';');
    assert [text][..0] == [];
    assert Bindings([text]) == Bindings([text][..0]) + Binding(text);
    assert map[] + Binding(text) == Binding(text);
  }

  lemma {:induction false} ParsePrinted(entries: seq<Entry>)
    requires CleanEntries(entries)
    ensures Parsed(Printed(entries)) == FromEntries(entries)
  {
    hide Binding, Parsed;
    if entries == [] {
      ParseSingle("");
      EmptyBinding();
    } else {
      var e, rest := entries[0], entries[1..];
      var text := e.key + "=" + e.val;
      EntryBinding(e);
      assert Printed(entries) == text + ";" + Printed(rest);
      ParseConcat(text, Printed(rest));
      ParseSingle(text);
      ParsePrinted(rest);
    }
  }

  /** The entries are the map, each key once, in some iteration order. */
  ghost predicate Lists(entries: seq<Entry>, m: map<string, string>) {
    && (forall i :: 0 <= i < |entries| ==> entries[i].key in m && m[entries[i].key] == entries[i].val)
    && (forall k :: k in m ==> exists i :: 0 <= i < |entries| && entries[i].key == k)
    && (forall i, j :: 0 <= i < j < |entries| ==> entries[i].key != entries[j].key)
  }

  lemma {:induction false} FromEntriesAt(entries: seq<Entry>, i: nat)
    requires i < |entries|
    requires forall i, j :: 0 <= i < j < |entries| ==> entries[i].key != entries[j].key
    ensures entries[i].key in FromEntries(entries) && FromEntries(entries)[entries[i].key] == entries[i].val
  {
    if i > 0 {
      assert entries[i] == entries[1..][i - 1];
      FromEntriesAt(entries[1..], i - 1);
    } else {
      FromEntriesKeys(entries[1..]);
      assert forall j :: 0 <= j < |entries[1..]| ==> entries[1..][j] == entries[j + 1];
    }
  }

  lemma {:induction false} FromEntriesKeys(entries: seq<Entry>)
    ensures forall k :: k in FromEntries(entries) ==> exists i :: 0 <= i < |entries| && entries[i].key == k
  {
    if entries != [] {
      FromEntriesKeys(entries[1..]);
      forall k | k in FromEntries(entries)
        ensures exists i :: 0 <= i < |entries| && entries[i].key == k
      {
        if k in FromEntries(entries[1..]) {
          var i :| 0 <= i < |entries[1..]| && entries[1..][i].key == k;
          assert entries[i + 1].key == k;
        } else {
          assert entries[0].key == k;
        }
      }
    }
  }

  lemma ListedIsMap(entries: seq<Entry>, m: map<string, string>)
    requires Lists(entries, m)
    ensures FromEntries(entries) == m
  {
    FromEntriesKeys(entries);
    forall k | k in m
      ensures k in FromEntries(entries) && FromEntries(entries)[k] == m[k]
    {
      var i :| 0 <= i < |entries| && entries[i].key == k;
      FromEntriesAt(entries, i);
    }
  }

  /** Printing a map in any iteration order and parsing the result gives the map back exactly when
      its keys are non-empty and no key or value contains a delimiter. */
  lemma RoundTripIff(entries: seq<Entry>, m: map<string, string>)
    requires Lists(entries, m)
    ensures Parsed(Printed(entries)) == m <==> CleanMap(m)
  {
    if CleanMap(m) {
      ParsePrinted(entries);
      ListedIsMap(entries, m);
    } else {
      ParsedIsClean(Printed(entries));
    }
  }

  /** A key alone is bound to the empty string. */
  lemma ParseBareKey(key: string)
    requires key != "" && CleanText(key)
    ensures Parsed(key) == map[key := ""]
  {
    ParseSingle(key);
    SplitClean(key, '=');
  }

  /** Of a value that contains '=' only the part before it is kept. */
  lemma ParseSecondEquals(key: string, val: string, rest: string)
    requires key != "" && CleanText(key) && CleanText(val) && ';' !in rest
    ensures Parsed(key + "=" + (val + "=" + rest)) == map[key := val]
  {
    var text := val + "=" + rest;
    SplitConcat(key, '=', text);
    SplitConcat(val, '=', rest);
    SplitClean(key, '=');
    SplitClean(val, '=');
    ParseSingle(key + "=" + text);
  }

  /** A segment without a key is ignored. */
  lemma ParseNoKey(rest: string)
    requires ';' !in rest
    ensures Parsed("=" + rest) == map[] && Parsed("") == map[]
  {
    SplitConcat("", '=', rest);
    assert "" + "=" + rest == "=" + rest;
    ParseSingle("=" + rest);
    ParseSingle("");
    EmptyBinding();
  }
}
