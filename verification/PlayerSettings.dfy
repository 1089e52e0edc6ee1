/**
 The player application settings on their way from the native stack to Java: the flattening in
 `btavrcp_playerapplicationsetting_callback`
 (android/app/jni/com_android_bluetooth_avrcp_controller.cpp) and the decoding in
 `makeSupportedSettings` (PlayerApplicationSettings.java).
 */
module PlayerSettings {
  import opened MachineInt
  import opened Options

  const MAX_APP_ATTR_SIZE: int := 16

  /** `btrc_player_app_attr_t`: of the sixteen value slots the first `numVal` are in use. */
  datatype Attribute = Attribute(id: Byte, numVal: Byte, slots: seq<Byte>)

  predicate ValidAttribute(a: Attribute) {
    |a.slots| == MAX_APP_ATTR_SIZE && a.numVal <= MAX_APP_ATTR_SIZE
  }

  predicate ValidList(attrs: seq<Attribute>) {
    forall i :: 0 <= i < |attrs| ==> ValidAttribute(attrs[i])
  }

  /** What an attribute says: its id and its values in use. */
  datatype Setting = Setting(id: Byte, values: seq<Byte>)

  function Meaning(a: Attribute): Setting
    requires ValidAttribute(a)
  {
    Setting(a.id, a.slots[..a.numVal])
  }

  function Meanings(attrs: seq<Attribute>): (m: seq<Setting>)
    requires ValidList(attrs)
    ensures |m| == |attrs|
  {
    if attrs == [] then [] else [Meaning(attrs[0])] + Meanings(attrs[1..])
  }

  /** `<id, num_values, values[]>` for each attribute in turn. */
  function Flat(attrs: seq<Attribute>): seq<Byte>
    requires ValidList(attrs)
  {
    if attrs == [] then []
    else Flat(attrs[..|attrs| - 1]) + FlatOne(attrs[|attrs| - 1])
  }

  function FlatOne(a: Attribute): (f: seq<Byte>)
    requires ValidAttribute(a)
    ensures |f| == 2 + a.numVal
  {
    [a.id, a.numVal] + a.slots[..a.numVal]
  }

  /** `SetByteArrayRegion`: copy into the array, counting the writes to every index. */
  method SetRegion(out: array<Byte>, ghost writes: seq<nat>, at: nat, bytes: seq<Byte>) returns (ghost after: seq<nat>)
    requires |writes| == out.Length && at + |bytes| <= out.Length
    modifies out
    ensures forall i :: 0 <= i < out.Length ==>
              out[i] == if at <= i < at + |bytes| then bytes[i - at] else old(out[i])
    ensures |after| == |writes|
    ensures forall i :: 0 <= i < |writes| ==> after[i] == writes[i] + if at <= i < at + |bytes| then 1 else 0
  {
    for j := 0 to |bytes|
      invariant forall i :: 0 <= i < out.Length ==>
                  out[i] == if at <= i < at + j then bytes[i - at] else old(out[i])
    {
      out[at + j] := bytes[j];
    }
    after := seq(|writes|, i requires 0 <= i < |writes| => writes[i] + if at <= i < at + |bytes| then 1 else 0);
  }

  /** One round of the fill loop: the three regions of an attribute, one after the other. */
  method FillOne(out: array<Byte>, ghost writes: seq<nat>, at: nat, a: Attribute) returns (k: nat, ghost after: seq<nat>)
    requires ValidAttribute(a) && |writes| == out.Length && at + |FlatOne(a)| <= out.Length
    modifies out
    ensures k == at + |FlatOne(a)|
    ensures forall i :: 0 <= i < out.Length ==>
              out[i] == if at <= i < k then FlatOne(a)[i - at] else old(out[i])
    ensures |after| == |writes|
    ensures forall i :: 0 <= i < |writes| ==> after[i] == writes[i] + if at <= i < k then 1 else 0
  {
    k := at;
    after := SetRegion(out, writes, k, [a.id]);
    k := k + 1;
    after := SetRegion(out, after, k, [a.numVal]);
    k := k + 1;
    after := SetRegion(out, after, k, a.slots[..a.numVal]);
    k := k + a.numVal;
  }

  /** The length loop of the callback. */
  method ArrayLength(attrs: seq<Attribute>) returns (arraylen: nat)
    requires ValidList(attrs)
    ensures arraylen == |Flat(attrs)|
  {
    arraylen := 0;
    for i := 0 to |attrs|
      invariant arraylen == |Flat(attrs[..i])|
    {
      assert attrs[..i + 1][..i] == attrs[..i];
      arraylen := arraylen + 2 + attrs[i].numVal;
    }
    assert attrs[..|attrs|] == attrs;
  }

  lemma FlatNothing(attrs: seq<Attribute>)
    requires ValidList(attrs)
    ensures Flat(attrs[..0]) == []
  {
  }

  lemma FlatSnoc(attrs: seq<Attribute>, i: nat)
    requires ValidList(attrs) && i < |attrs|
    ensures Flat(attrs[..i + 1]) == Flat(attrs[..i]) + FlatOne(attrs[i])
  {
    assert attrs[..i + 1][..i] == attrs[..i];
  }

  /** A longer list never flattens to less. */
  lemma {:induction false} FlatPrefix(attrs: seq<Attribute>, i: nat)
    requires ValidList(attrs) && i <= |attrs|
    ensures |Flat(attrs[..i])| + 2 * (|attrs| - i) <= |Flat(attrs)|
    decreases |attrs| - i
  {
    if i < |attrs| {
      assert attrs[..i + 1][..i] == attrs[..i];
      FlatPrefix(attrs, i + 1);
    } else {
      assert attrs[..i] == attrs;
    }
  }

  /** The length loop and the fill loop together: the array holds the flattened list, every index was
      written exactly once and within bounds, the guard on the cursor never ended the loop early, and
      the cursor ends at the length of the array. */
  method Flatten(attrs: seq<Attribute>) returns (out: array<Byte>, arraylen: nat, i: nat, k: nat, ghost writes: seq<nat>)
    requires ValidList(attrs)
    ensures fresh(out)
    ensures out[..] == Flat(attrs)
    ensures out.Length == arraylen == k
    ensures i == |attrs|
    ensures |writes| == arraylen && forall j :: 0 <= j < arraylen ==> writes[j] == 1
  {
    hide Flat, FlatOne;
    arraylen := ArrayLength(attrs);
    FlatNothing(attrs);
    out := new Byte[arraylen](_ => 0);
    writes := seq(arraylen, _ => 0);
    i, k := 0, 0;
    while i < |attrs| && k < arraylen
      invariant 0 <= i <= |attrs| && out.Length == arraylen == |writes|
      invariant k == |Flat(attrs[..i])| <= arraylen
      invariant out[..k] == Flat(attrs[..i])
      invariant forall j :: 0 <= j < arraylen ==> writes[j] == if j < k then 1 else 0
      decreases |attrs| - i
    {
      var a := attrs[i];
      FlatSnoc(attrs, i);
      FlatPrefix(attrs, i + 1);
      ghost var done := out[..k];
      k, writes := FillOne(out, writes, k, a);
      assert out[..k] == done + FlatOne(a);
      i := i + 1;
    }
    FlatPrefix(attrs, i);
    assert attrs[..|attrs|] == attrs;
    assert out[..k] == out[..];
  }

  // ----- decoding

  /** A length-directed decoder: nothing, if the bytes end inside an attribute. */
  function Decode(bytes: seq<Byte>): Option<seq<Setting>> {
    if bytes == [] then Some([])
    else if |bytes| < 2 then None
    else
      var n: int := bytes[1];
      if |bytes| < 2 + n then None
      else
        var rest := Decode(bytes[2 + n..]);
        if rest.None? then None else Some([Setting(bytes[0], bytes[2..2 + n])] + rest.value)
  }

  lemma {:induction false} FlatCons(a: Attribute, attrs: seq<Attribute>)
    requires ValidAttribute(a) && ValidList(attrs)
    ensures ValidList([a] + attrs)
    ensures Flat([a] + attrs) == FlatOne(a) + Flat(attrs)
    decreases |attrs|
  {
    hide FlatOne;
    if attrs == [] {
      assert [a] + attrs == [a] && [a][..0] == [];
    } else {
      var front, last := attrs[..|attrs| - 1], attrs[|attrs| - 1];
      assert ([a] + attrs)[..|attrs|] == [a] + front;
      FlatCons(a, front);
      assert Flat([a] + attrs) == Flat([a] + front) + FlatOne(last);
      assert FlatOne(a) + Flat(front) + FlatOne(last) == FlatOne(a) + (Flat(front) + FlatOne(last));
    }
  }

  /** Decoding recovers what the list says, so flattening loses nothing. */
  lemma {:induction false} DecodeFlat(attrs: seq<Attribute>)
    requires ValidList(attrs)
    ensures Decode(Flat(attrs)) == Some(Meanings(attrs))
    decreases |attrs|
  {
    if attrs != [] {
      var a, rest := attrs[0], attrs[1..];
      assert attrs == [a] + rest;
      FlatCons(a, rest);
      var flat := Flat(attrs);
      assert flat[2 + flat[1]..] == Flat(rest);
      assert flat[2..2 + flat[1]] == a.slots[..a.numVal];
      DecodeFlat(rest);
    }
  }

  /** Two lists flatten to the same bytes exactly when they say the same. */
  lemma FlatInjective(xs: seq<Attribute>, ys: seq<Attribute>)
    requires ValidList(xs) && ValidList(ys)
    ensures Flat(xs) == Flat(ys) <==> Meanings(xs) == Meanings(ys)
  {
    DecodeFlat(xs);
    DecodeFlat(ys);
    if Meanings(xs) == Meanings(ys) {
      SameFlat(xs, ys);
    }
  }

  lemma {:induction false} SameFlat(xs: seq<Attribute>, ys: seq<Attribute>)
    requires ValidList(xs) && ValidList(ys) && Meanings(xs) == Meanings(ys)
    ensures Flat(xs) == Flat(ys)
    decreases |xs|
  {
    if xs != [] {
      assert Meanings(xs)[1..] == Meanings(xs[1..]) && Meanings(ys)[1..] == Meanings(ys[1..]);
      assert Meanings(xs)[0] == Meaning(xs[0]) && Meanings(ys)[0] == Meaning(ys[0]);
      SameFlat(xs[1..], ys[1..]);
      FlatCons(xs[0], xs[1..]);
      FlatCons(ys[0], ys[1..]);
      assert xs == [xs[0]] + xs[1..] && ys == [ys[0]] + ys[1..];
      assert |xs[0].slots[..xs[0].numVal]| == xs[0].numVal && |ys[0].slots[..ys[0].numVal]| == ys[0].numVal;
    }
  }

  // ----- the Java side

  /** The value of a Java `byte`. */
  function Signed(b: Byte): (v: int)
    ensures -128 <= v < 128 && (v == b || v == b - 256)
  {
    if b < 128 then b else b - 256
  }

  /** The inner loop of `makeSupportedSettings`: the next `numVals` bytes, or none if they run out. */
  method ReadValues(list: seq<Byte>, first: nat, numVals: int) returns (values: Option<seq<Byte>>, i: nat)
    requires first <= |list|
    ensures var n := if numVals < 0 then 0 else numVals;
            if first + n <= |list| then values == Some(list[first..first + n]) && i == first + n else values.None?
  {
    var read := [];
    i := first;
    var j := 0;
    while j < numVals
      invariant 0 <= j && (j == 0 || j <= numVals) && i == first + j <= |list| && read == list[first..i]
      decreases numVals - j
    {
      if i >= |list| {
        return None, i;
      }
      read := read + [list[i]];
      i := i + 1;
      j := j + 1;
    }
    return Some(read), i;
  }

  /** `makeSupportedSettings`: the values of each attribute id, still in native form. An index past the
      end ends the decoding with what was complete so far. */
  method MakeSupportedSettings(list: seq<Byte>) returns (supported: map<Byte, seq<Byte>>)
    ensures supported == Supported(list, map[])
  {
    hide Supported;
    supported := map[];
    var i := 0;
    assert list[0..] == list;
    while i < |list|
      invariant 0 <= i <= |list|
      invariant Supported(list[i..], supported) == Supported(list, map[])
      decreases |list| - i
    {
      ghost var rest := list[i..];
      SupportedStep(rest, supported);
      var attrId := list[i];
      i := i + 1;
      if i >= |list| {
        return;
      }
      var numVals := Signed(list[i]);
      var values, next := ReadValues(list, i + 1, numVals);
      if values.None? {
        return;
      }
      ghost var n := if numVals < 0 then 0 else numVals;
      assert rest[2..2 + n] == values.value && rest[2 + n..] == list[next..];
      i := next;
      supported := supported[attrId := values.value];
    }
    SupportedStep(list[i..], supported);
  }

  /** One round of the decoding. */
  lemma SupportedStep(list: seq<Byte>, soFar: map<Byte, seq<Byte>>)
    ensures |list| < 2 ==> Supported(list, soFar) == soFar
    ensures |list| >= 2 ==>
              var n := if Signed(list[1]) < 0 then 0 else Signed(list[1]);
              Supported(list, soFar) ==
              if |list| < 2 + n then soFar else Supported(list[2 + n..], soFar[list[0] := list[2..2 + n]])
  {
  }

  function Supported(list: seq<Byte>, soFar: map<Byte, seq<Byte>>): map<Byte, seq<Byte>>
    decreases |list|
  {
    if |list| < 2 then soFar
    else
      var n := if Signed(list[1]) < 0 then 0 else Signed(list[1]);
      if |list| < 2 + n then soFar else Supported(list[2 + n..], soFar[list[0] := list[2..2 + n]])
  }

  /** The table a list of settings stands for; a repeated id keeps its last values. */
  function Table(settings: seq<Setting>, soFar: map<Byte, seq<Byte>>): map<Byte, seq<Byte>>
    decreases |settings|
  {
    if settings == [] then soFar else Table(settings[1..], soFar[settings[0].id := settings[0].values])
  }

  /** From end to end, Java's table is the one the native list stands for. */
  lemma {:induction false} JavaSeesTheSettings(attrs: seq<Attribute>, soFar: map<Byte, seq<Byte>>)
    requires ValidList(attrs)
    ensures Supported(Flat(attrs), soFar) == Table(Meanings(attrs), soFar)
    decreases |attrs|
  {
    if attrs != [] {
      var a, rest := attrs[0], attrs[1..];
      assert attrs == [a] + rest;
      FlatCons(a, rest);
      var flat := Flat(attrs);
      assert flat[2 + a.numVal..] == Flat(rest);
      assert flat[2..2 + a.numVal] == a.slots[..a.numVal];
      JavaSeesTheSettings(rest, soFar[a.id := a.slots[..a.numVal]]);
      assert Meanings(attrs)[1..] == Meanings(rest);
    }
  }
}
