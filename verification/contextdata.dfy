/** The tagged tree in which job messages carry their contexts: decoding from JSON and flattening into plain values. */
module ContextData {
  import opened Wrappers

  /** A JSON value with unique object keys. A number written as an integer literal is kept apart from the others, because
      only the former can be a tag. */
  datatype Json =
    | JNull
    | JBool(flag: bool)
    | JInt(whole: int)
    | JReal(number: real)
    | JString(text: string)
    | JArray(items: seq<Json>)
    | JObject(fields: map<string, Json>)

  const STRING := 0
  const ARRAY := 1
  const DICTIONARY := 2
  const BOOLEAN := 3
  const NUMBER := 4
  const CASE_SENSITIVE_DICTIONARY := 5

  datatype Data = Data(kind: int, str: string, arr: seq<Data>, dict: seq<Pair>, boolean: bool, number: real)

  datatype Pair = Pair(key: string, val: Data)

  const ZERO := Data(STRING, "", [], [], false, 0.0)

  /** What flattening yields: JSON without null. */
  datatype Plain =
    | PString(s: string)
    | PBool(b: bool)
    | PNumber(n: real)
    | PArray(elements: seq<Plain>)
    | PObject(entries: map<string, Plain>)

  // ---------- decoding ----------

  predicate Absent(f: map<string, Json>, key: string) {
    key !in f || f[key].JNull?
  }

  function TagField(f: map<string, Json>): Option<int> {
    if Absent(f, "t") then Some(STRING)
    else if f["t"].JInt? && -0x8000_0000 <= f["t"].whole < 0x8000_0000 then Some(f["t"].whole)
    else None
  }

  function TextField(f: map<string, Json>, key: string): Option<string> {
    if Absent(f, key) then Some("") else if f[key].JString? then Some(f[key].text) else None
  }

  function FlagField(f: map<string, Json>): Option<bool> {
    if Absent(f, "b") then Some(false) else if f["b"].JBool? then Some(f["b"].flag) else None
  }

  function NumberField(f: map<string, Json>): Option<real> {
    if Absent(f, "n") then Some(0.0)
    else if f["n"].JInt? then Some(f["n"].whole as real)
    else if f["n"].JReal? then Some(f["n"].number)
    else None
  }

  predicate ScalarsFit(f: map<string, Json>) {
    TagField(f).Some? && TextField(f, "s").Some? && FlagField(f).Some? && NumberField(f).Some?
  }

  /** Decoding: the three shorthand forms, null which leaves the zero value, and the tagged form. */
  function Decode(j: Json): Option<Data>
    decreases j, 1
  {
    match j
    case JString(s) => Some(ZERO.(kind := STRING, str := s))
    case JBool(b) => Some(ZERO.(kind := BOOLEAN, boolean := b))
    case JInt(i) => Some(ZERO.(kind := NUMBER, number := i as real))
    case JReal(r) => Some(ZERO.(kind := NUMBER, number := r))
    case JNull => Some(ZERO)
    case JArray(_) => None
    case JObject(_) => DecodeStruct(j)
  }

  function DecodeStruct(j: Json): Option<Data>
    requires j.JObject?
    decreases j, 0
  {
    var f := j.fields;
    var arr := if Absent(f, "a") then Some([]) else if f["a"].JArray? then DecodeAll(f["a"].items) else None;
    var dict := if Absent(f, "d") then Some([]) else if f["d"].JArray? then DecodePairs(f["d"].items) else None;
    if ScalarsFit(f) && arr.Some? && dict.Some? then
      Some(Data(TagField(f).value, TextField(f, "s").value, arr.value, dict.value, FlagField(f).value, NumberField(f).value))
    else None
  }

  function DecodeAll(js: seq<Json>): Option<seq<Data>>
    decreases js, 0
  {
    if js == [] then Some([])
    else
      var head, rest := Decode(js[0]), DecodeAll(js[1..]);
      if head.Some? && rest.Some? then Some([head.value] + rest.value) else None
  }

  function DecodePairs(js: seq<Json>): Option<seq<Pair>>
    decreases js, 0
  {
    if js == [] then Some([])
    else
      var head, rest := DecodePair(js[0]), DecodePairs(js[1..]);
      if head.Some? && rest.Some? then Some([head.value] + rest.value) else None
  }

  function DecodePair(j: Json): Option<Pair>
    decreases j, 0
  {
    match j
    case JNull => Some(Pair("", ZERO))
    case JObject(f) =>
      var key, val := TextField(f, "k"), if "v" in f then Decode(f["v"]) else Some(ZERO);
      if key.Some? && val.Some? then Some(Pair(key.value, val.value)) else None
    case _ => None
  }

  // ---------- flattening ----------

  predicate IsDictionary(kind: int) {
    kind == DICTIONARY || kind == CASE_SENSITIVE_DICTIONARY
  }

  /** Flattening; a failure carries the tag it complains about. */
  function Flatten(d: Data): Result<Plain, int>
    decreases d
  {
    if d.kind == STRING then Ok(PString(d.str))
    else if d.kind == ARRAY then
      var all := FlattenAll(d.arr);
      if all.Ok? then Ok(PArray(all.value)) else Err(all.error)
    else if IsDictionary(d.kind) then
      var all := FlattenPairs(d.dict);
      if all.Ok? then Ok(PObject(all.value)) else Err(all.error)
    else if d.kind == BOOLEAN then Ok(PBool(d.boolean))
    else if d.kind == NUMBER then Ok(PNumber(d.number))
    else Err(d.kind)
  }

  function FlattenAll(ds: seq<Data>): Result<seq<Plain>, int>
    decreases ds
  {
    if ds == [] then Ok([])
    else
      var front := FlattenAll(ds[..|ds| - 1]);
      if front.Err? then front
      else
        var last := Flatten(ds[|ds| - 1]);
        if last.Ok? then Ok(front.value + [last.value]) else Err(last.error)
  }

  function FlattenPairs(ps: seq<Pair>): Result<map<string, Plain>, int>
    decreases ps
  {
    if ps == [] then Ok(map[])
    else
      var front := FlattenPairs(ps[..|ps| - 1]);
      if front.Err? then front
      else
        var last := Flatten(ps[|ps| - 1].val);
        if last.Ok? then Ok(front.value[ps[|ps| - 1].key := last.value]) else Err(last.error)
  }

  // ---------- the code ----------

  class PipelineContextData {
    var kind: int
    var str: string
    var arr: seq<Data>
    var dict: seq<Pair>
    var boolean: bool
    var number: real

    ghost function Value(): Data
      reads this
    {
      Data(kind, str, arr, dict, boolean, number)
    }

    constructor ()
      ensures Value() == ZERO
    {
      kind, str, arr, dict, boolean, number := STRING, "", [], [], false, 0.0;
    }

    /** Fills a receiver that still has its zero value, as every receiver in a decoded message has. */
    method UnmarshalJSON(j: Json) returns (ok: bool)
      requires Value() == ZERO
      modifies this
      ensures ok == Decode(j).Some?
      ensures ok ==> Value() == Decode(j).value
    {
      if j.JString? {
        kind, str := STRING, j.text;
      } else if j.JBool? {
        kind, boolean := BOOLEAN, j.flag;
      } else if j.JInt? {
        kind, number := NUMBER, j.whole as real;
      } else if j.JReal? {
        kind, number := NUMBER, j.number;
      } else if !j.JNull? {
        if j.JArray? { return false; }
        var d := DecodeStruct(j);
        if d.None? { return false; }
        kind, str, arr, dict, boolean, number :=
          d.value.kind, d.value.str, d.value.arr, d.value.dict, d.value.boolean, d.value.number;
      }
      return true;
    }
  }

  method Flattened(d: Data) returns (r: Result<Plain, int>)
    ensures r == Flatten(d)
    decreases d
  {
    var t := d.kind;
    if t == STRING {
      return Ok(PString(d.str));
    } else if t == ARRAY {
      var plains: seq<Plain> := [];
      for i := 0 to |d.arr|
        invariant FlattenAll(d.arr[..i]) == Ok(plains)
      {
        assert d.arr[..i + 1][..i] == d.arr[..i];
        var v := Flattened(d.arr[i]);
        if v.Err? {
          ErrorInFront(d.arr, i + 1);
          return Err(v.error);
        }
        plains := plains + [v.value];
      }
      assert d.arr[..|d.arr|] == d.arr;
      return Ok(PArray(plains));
    } else if t == DICTIONARY || t == CASE_SENSITIVE_DICTIONARY {
      var msi: map<string, Plain> := map[];
      for i := 0 to |d.dict|
        invariant FlattenPairs(d.dict[..i]) == Ok(msi)
      {
        assert d.dict[..i + 1][..i] == d.dict[..i];
        var v := Flattened(d.dict[i].val);
        if v.Err? {
          PairErrorInFront(d.dict, i + 1);
          return Err(v.error);
        }
        msi := msi[d.dict[i].key := v.value];
      }
      assert d.dict[..|d.dict|] == d.dict;
      return Ok(PObject(msi));
    } else if t == BOOLEAN {
      return Ok(PBool(d.boolean));
    } else if t == NUMBER {
      return Ok(PNumber(d.number));
    } else {
      return Err(t);
    }
  }

  lemma {:induction false} ErrorInFront(ds: seq<Data>, k: nat)
    requires k <= |ds| && FlattenAll(ds[..k]).Err?
    ensures FlattenAll(ds) == FlattenAll(ds[..k])
  {
    if k == |ds| {
      assert ds[..k] == ds;
    } else {
      assert ds[..|ds| - 1][..k] == ds[..k];
      ErrorInFront(ds[..|ds| - 1], k);
    }
  }

  lemma {:induction false} PairErrorInFront(ps: seq<Pair>, k: nat)
    requires k <= |ps| && FlattenPairs(ps[..k]).Err?
    ensures FlattenPairs(ps) == FlattenPairs(ps[..k])
  {
    if k == |ps| {
      assert ps[..k] == ps;
    } else {
      assert ps[..|ps| - 1][..k] == ps[..k];
      PairErrorInFront(ps[..|ps| - 1], k);
    }
  }

  // ---------- element by element ----------

  lemma {:induction false} DecodeAllIff(js: seq<Json>)
    ensures DecodeAll(js).Some? <==> forall i :: 0 <= i < |js| ==> Decode(js[i]).Some?
    ensures DecodeAll(js).Some? ==>
      && |DecodeAll(js).value| == |js|
      && forall i :: 0 <= i < |js| ==> Decode(js[i]) == Some(DecodeAll(js).value[i])
  {
    if js != [] {
      DecodeAllIff(js[1..]);
      assert forall i :: 0 < i < |js| ==> js[i] == js[1..][i - 1];
      assert forall i :: 0 <= i < |js| - 1 ==> js[1..][i] == js[i + 1];
    }
  }

  lemma {:induction false} DecodePairsIff(js: seq<Json>)
    ensures DecodePairs(js).Some? <==> forall i :: 0 <= i < |js| ==> DecodePair(js[i]).Some?
    ensures DecodePairs(js).Some? ==>
      && |DecodePairs(js).value| == |js|
      && forall i :: 0 <= i < |js| ==> DecodePair(js[i]) == Some(DecodePairs(js).value[i])
  {
    if js != [] {
      DecodePairsIff(js[1..]);
      assert forall i :: 0 < i < |js| ==> js[i] == js[1..][i - 1];
      assert forall i :: 0 <= i < |js| - 1 ==> js[1..][i] == js[i + 1];
    }
  }

  lemma {:induction false} FlattenAllIs(ds: seq<Data>, vs: seq<Plain>)
    requires |vs| == |ds| && forall i :: 0 <= i < |ds| ==> Flatten(ds[i]) == Ok(vs[i])
    ensures FlattenAll(ds) == Ok(vs)
  {
    if ds != [] {
      var n := |ds| - 1;
      FlattenAllIs(ds[..n], vs[..n]);
      assert vs == vs[..n] + [vs[n]];
    }
  }

  /** A later pair wins over an earlier one of the same key, and no other key appears. */
  lemma {:induction false} LastPairWins(ps: seq<Pair>, i: nat)
    requires i < |ps| && FlattenPairs(ps).Ok?
    requires forall k :: i < k < |ps| ==> ps[k].key != ps[i].key
    ensures ps[i].key in FlattenPairs(ps).value
    ensures Flatten(ps[i].val) == Ok(FlattenPairs(ps).value[ps[i].key])
  {
    if i < |ps| - 1 { LastPairWins(ps[..|ps| - 1], i); }
  }

  lemma {:induction false} PairsFlatten(ps: seq<Pair>)
    ensures FlattenPairs(ps).Ok? <==> forall i :: 0 <= i < |ps| ==> Flatten(ps[i].val).Ok?
    ensures FlattenPairs(ps).Ok? ==> FlattenPairs(ps).value.Keys == set i | 0 <= i < |ps| :: ps[i].key
  {
    if ps != [] {
      var n := |ps| - 1;
      PairsFlatten(ps[..n]);
      assert ps == ps[..n] + [ps[n]];
      assert forall i :: 0 <= i < n ==> ps[..n][i] == ps[i];
      assert (set i | 0 <= i < |ps| :: ps[i].key) == (set i | 0 <= i < n :: ps[..n][i].key) + {ps[n].key};
    }
  }

  // ---------- which JSON decodes ----------

  /** A field that is there and not null. */
  predicate Given(f: map<string, Json>, key: string) {
    key in f && f[key] != JNull
  }

  predicate FieldsTyped(f: map<string, Json>) {
    && (Given(f, "t") ==> f["t"].JInt? && -2147483648 <= f["t"].whole <= 2147483647)
    && (Given(f, "s") ==> f["s"].JString?)
    && (Given(f, "b") ==> f["b"].JBool?)
    && (Given(f, "n") ==> f["n"].JInt? || f["n"].JReal?)
  }

  predicate PairFits(j: Json) {
    j.JNull? || (j.JObject? && (Given(j.fields, "k") ==> j.fields["k"].JString?))
  }

  /** The format, field by field: no bare list anywhere a value is expected, and every field of its own type or null. */
  predicate WellFormed(j: Json)
    decreases j
  {
    match j
    case JArray(_) => false
    case JObject(f) =>
      && FieldsTyped(f)
      && (Given(f, "a") ==> f["a"].JArray? && forall i :: 0 <= i < |f["a"].items| ==> WellFormed(f["a"].items[i]))
      && (Given(f, "d") ==> f["d"].JArray? && forall i :: 0 <= i < |f["d"].items| ==>
            var p := f["d"].items[i];
            PairFits(p) && (p.JObject? && "v" in p.fields ==> WellFormed(p.fields["v"])))
    case _ => true
  }

  /** Decoding succeeds exactly on the well-formed values, at every depth. */
  lemma {:induction false} DecodesIff(j: Json)
    ensures Decode(j).Some? <==> WellFormed(j)
    decreases j
  {
    if j.JObject? {
      var f := j.fields;
      if !Absent(f, "a") && f["a"].JArray? {
        DecodeAllIff(f["a"].items);
        forall i | 0 <= i < |f["a"].items| ensures Decode(f["a"].items[i]).Some? <==> WellFormed(f["a"].items[i]) {
          DecodesIff(f["a"].items[i]);
        }
      }
      if !Absent(f, "d") && f["d"].JArray? {
        DecodePairsIff(f["d"].items);
        forall i | 0 <= i < |f["d"].items|
          ensures var p := f["d"].items[i];
                  DecodePair(p).Some? <==> PairFits(p) && (p.JObject? && "v" in p.fields ==> WellFormed(p.fields["v"]))
        {
          var p := f["d"].items[i];
          if p.JObject? && "v" in p.fields { DecodesIff(p.fields["v"]); }
        }
      }
    }
  }

  // ---------- the round trip ----------

  /** The tag, which is 0 when it is not given. */
  predicate HasTag(f: map<string, Json>, tag: int) {
    if Given(f, "t") then f["t"] == JInt(tag) else tag == 0
  }

  /** A scalar field, which has its zero value when it is not given. */
  predicate HasField(f: map<string, Json>, key: string, value: Json, isZero: bool) {
    if Given(f, key) then f[key] == value else isZero
  }

  /** One of the encodings of v: at each node the shorthand or the tagged form; fields the tag does not select may hold
      anything well-formed; a dictionary may carry either of its two tags and lists each key once, in any order. */
  ghost predicate Encodes(v: Plain, j: Json)
    decreases j, 1
  {
    match j
    case JNull => v == PString("")
    case JString(s) => v == PString(s)
    case JBool(b) => v == PBool(b)
    case JInt(i) => v == PNumber(i as real)
    case JReal(r) => v == PNumber(r)
    case JArray(_) => false
    case JObject(f) =>
      && WellFormed(j)
      && match v
         case PString(s) => HasTag(f, 0) && HasField(f, "s", JString(s), s == "")
         case PArray(vs) => HasTag(f, 1) && EncodesElements(vs, j)
         case PObject(m) => (HasTag(f, 2) || HasTag(f, 5)) && EncodesEntries(m, j)
         case PBool(b) => HasTag(f, 3) && HasField(f, "b", JBool(b), !b)
         case PNumber(n) =>
           HasTag(f, 4) && (HasField(f, "n", JReal(n), n == 0.0) || (Given(f, "n") && f["n"].JInt? && f["n"].whole as real == n))
  }

  ghost predicate EncodesElements(vs: seq<Plain>, j: Json)
    requires j.JObject?
    decreases j, 0
  {
    if !Given(j.fields, "a") then vs == []
    else
      && j.fields["a"].JArray?
      && |j.fields["a"].items| == |vs|
      && forall i :: 0 <= i < |vs| ==> Encodes(vs[i], j.fields["a"].items[i])
  }

  function KeyOf(p: Json): string {
    if p.JObject? && Given(p.fields, "k") && p.fields["k"].JString? then p.fields["k"].text else ""
  }

  function KeysOf(ps: seq<Json>): set<string> {
    set i | 0 <= i < |ps| :: KeyOf(ps[i])
  }

  ghost predicate EncodesEntries(m: map<string, Plain>, j: Json)
    requires j.JObject?
    decreases j, 0
  {
    if !Given(j.fields, "d") then m == map[]
    else
      && j.fields["d"].JArray?
      && var ps := j.fields["d"].items;
      && m.Keys == KeysOf(ps)
      && (forall i, k :: 0 <= i < k < |ps| ==> KeyOf(ps[i]) != KeyOf(ps[k]))
      && forall i :: 0 <= i < |ps| ==>
           && KeyOf(ps[i]) in m
           && if ps[i].JObject? && "v" in ps[i].fields then Encodes(m[KeyOf(ps[i])], ps[i].fields["v"])
              else m[KeyOf(ps[i])] == PString("")
  }

  /** Decoding any encoding of a value and flattening the result gives the value back. */
  lemma {:induction false} RoundTrip(v: Plain, j: Json)
    requires Encodes(v, j)
    ensures Decode(j).Some? && Flatten(Decode(j).value) == Ok(v)
    decreases j
  {
    if j.JObject? {
      DecodesIff(j);
      if v.PArray? {
        ElementsRoundTrip(v.elements, j);
      } else if v.PObject? {
        EntriesRoundTrip(v.entries, j);
      }
    }
  }

  lemma {:induction false} ElementsRoundTrip(vs: seq<Plain>, j: Json)
    requires j.JObject? && DecodeStruct(j).Some? && EncodesElements(vs, j)
    ensures FlattenAll(DecodeStruct(j).value.arr) == Ok(vs)
    decreases j, 0
  {
    if !Absent(j.fields, "a") {
      var items := j.fields["a"].items;
      DecodeAllIff(items);
      var ds := DecodeAll(items).value;
      forall i | 0 <= i < |ds| ensures Flatten(ds[i]) == Ok(vs[i]) {
        RoundTrip(vs[i], items[i]);
      }
      FlattenAllIs(ds, vs);
    }
  }

  lemma {:induction false} EntriesRoundTrip(m: map<string, Plain>, j: Json)
    requires j.JObject? && DecodeStruct(j).Some? && EncodesEntries(m, j)
    ensures FlattenPairs(DecodeStruct(j).value.dict) == Ok(m)
    decreases j, 0
  {
    hide Encodes, WellFormed, Flatten, Decode;
    if !Absent(j.fields, "d") {
      var js := j.fields["d"].items;
      DecodePairsIff(js);
      var ps := DecodePairs(js).value;
      forall i | 0 <= i < |ps| ensures ps[i].key == KeyOf(js[i]) && Flatten(ps[i].val) == Ok(m[KeyOf(js[i])]) {
        EntryRoundTrips(m, js[i]);
      }
      hide *;
      assert (set i | 0 <= i < |ps| :: ps[i].key) == KeysOf(js);
      DistinctPairs(ps, m);
    }
  }

  lemma {:induction false} EntryRoundTrips(m: map<string, Plain>, p: Json)
    requires DecodePair(p).Some? && KeyOf(p) in m
    requires if p.JObject? && "v" in p.fields then Encodes(m[KeyOf(p)], p.fields["v"]) else m[KeyOf(p)] == PString("")
    ensures DecodePair(p).value.key == KeyOf(p) && Flatten(DecodePair(p).value.val) == Ok(m[KeyOf(p)])
    decreases p, 0
  {
    hide Encodes, WellFormed;
    if p.JObject? && "v" in p.fields { RoundTrip(m[KeyOf(p)], p.fields["v"]); }
  }

  lemma DistinctPairs(ps: seq<Pair>, m: map<string, Plain>)
    requires m.Keys == set i | 0 <= i < |ps| :: ps[i].key
    requires forall i, k :: 0 <= i < k < |ps| ==> ps[i].key != ps[k].key
    requires forall i :: 0 <= i < |ps| ==> ps[i].key in m && Flatten(ps[i].val) == Ok(m[ps[i].key])
    ensures FlattenPairs(ps) == Ok(m)
  {
    PairsFlatten(ps);
    var got := FlattenPairs(ps).value;
    forall k | k in m ensures got[k] == m[k] {
      var i :| 0 <= i < |ps| && ps[i].key == k;
      LastPairWins(ps, i);
    }
    assert got == m;
  }

  /** No JSON value encodes two different values. */
  lemma EncodesOneValue(v: Plain, w: Plain, j: Json)
    requires Encodes(v, j) && Encodes(w, j)
    ensures v == w
  {
    RoundTrip(v, j);
    RoundTrip(w, j);
  }

  /** Every value has an encoding that uses the tagged form at every node, under whichever dictionary tag is preferred. */
  lemma {:induction false} HasTaggedEncoding(v: Plain, tag: int) returns (j: Json)
    requires tag == 2 || tag == 5
    ensures j.JObject? && Encodes(v, j)
    decreases v, 1, 0
  {
    match v
    case PString(s) => j := JObject(map["s" := JString(s)]);
    case PBool(b) => j := JObject(map["t" := JInt(3), "b" := JBool(b)]);
    case PNumber(n) => j := JObject(map["t" := JInt(4), "n" := JReal(n)]);
    case PArray(vs) =>
      var items := ElementsHaveEncodings(vs, tag);
      j := JObject(map["t" := JInt(1), "a" := JArray(items)]);
      forall i | 0 <= i < |items| ensures WellFormed(items[i]) { assert Encodes(vs[i], items[i]); }
    case PObject(m) =>
      var ps := EntriesHaveEncodings(v, m.Keys, tag);
      j := JObject(map["t" := JInt(tag), "d" := JArray(ps)]);
      forall i | 0 <= i < |ps| ensures PairFits(ps[i]) && WellFormed(ps[i].fields["v"]) {
        assert Encodes(m[KeyOf(ps[i])], ps[i].fields["v"]);
      }
  }

  lemma {:induction false} ElementsHaveEncodings(vs: seq<Plain>, tag: int) returns (items: seq<Json>)
    requires tag == 2 || tag == 5
    ensures |items| == |vs| && forall i :: 0 <= i < |vs| ==> items[i].JObject? && Encodes(vs[i], items[i])
    decreases vs, 0
  {
    items := [];
    for k := 0 to |vs|
      invariant |items| == k && forall i :: 0 <= i < k ==> items[i].JObject? && Encodes(vs[i], items[i])
    {
      var j := HasTaggedEncoding(vs[k], tag);
      items := items + [j];
    }
  }

  lemma KeysSnoc(ps: seq<Json>, p: Json)
    ensures KeysOf(ps + [p]) == KeysOf(ps) + {KeyOf(p)}
  {
    hide KeyOf;
    var all := ps + [p];
    assert all[|ps|] == p;
    forall k | k in KeysOf(ps) ensures k in KeysOf(all) {
      var i :| 0 <= i < |ps| && KeyOf(ps[i]) == k;
      assert all[i] == ps[i];
    }
  }

  ghost predicate IsEntry(m: map<string, Plain>, p: Json) {
    && p.JObject? && Given(p.fields, "k") && p.fields["k"].JString? && "v" in p.fields && p.fields["v"].JObject?
    && KeyOf(p) in m && Encodes(m[KeyOf(p)], p.fields["v"])
  }

  lemma MakeEntry(m: map<string, Plain>, key: string, j: Json) returns (p: Json)
    requires key in m && j.JObject? && Encodes(m[key], j)
    ensures IsEntry(m, p) && KeyOf(p) == key
  {
    p := JObject(map["k" := JString(key), "v" := j]);
  }

  lemma {:induction false} EntriesHaveEncodings(v: Plain, keys: set<string>, tag: int) returns (ps: seq<Json>)
    requires v.PObject? && keys <= v.entries.Keys && (tag == 2 || tag == 5)
    ensures forall i :: 0 <= i < |ps| ==> IsEntry(v.entries, ps[i])
    ensures keys == KeysOf(ps)
    ensures forall i, k :: 0 <= i < k < |ps| ==> KeyOf(ps[i]) != KeyOf(ps[k])
    decreases v, 0, |keys|
  {
    hide Encodes, KeyOf, IsEntry;
    if keys == {} {
      ps := [];
    } else {
      var key :| key in keys;
      var rest := EntriesHaveEncodings(v, keys - {key}, tag);
      var j := HasTaggedEncoding(v.entries[key], tag);
      var p := MakeEntry(v.entries, key, j);
      ps := rest + [p];
      KeysSnoc(rest, p);
      forall i | 0 <= i < |rest| ensures KeyOf(rest[i]) != key {
        assert KeyOf(rest[i]) in KeysOf(rest);
      }
    }
  }

  // ---------- when flattening fails ----------

  predicate IsUnknown(d: Data) {
    d.kind < 0 || d.kind > 5
  }

  /** The i-th child the tag selects. */
  function Child(d: Data, i: nat): Option<Data> {
    if d.kind == 1 && i < |d.arr| then Some(d.arr[i])
    else if (d.kind == 2 || d.kind == 5) && i < |d.dict| then Some(d.dict[i].val)
    else None
  }

  /** The node reached from d through the active children that path names. */
  function At(d: Data, path: seq<nat>): Option<Data> {
    if path == [] then Some(d)
    else if Child(d, path[0]).Some? then At(Child(d, path[0]).value, path[1..])
    else None
  }

  predicate UnknownAt(d: Data, path: seq<nat>) {
    At(d, path).Some? && IsUnknown(At(d, path).value)
  }

  /** Document order between two paths neither of which leads on from the other. */
  predicate Before(p: seq<nat>, q: seq<nat>) {
    p != [] && q != [] && (p[0] < q[0] || (p[0] == q[0] && Before(p[1..], q[1..])))
  }

  /** A failure names the first unknown tag in document order among those reachable through active children. */
  lemma {:induction false} ErrorIsFirst(d: Data) returns (path: seq<nat>)
    requires Flatten(d).Err?
    ensures UnknownAt(d, path) && At(d, path).value.kind == Flatten(d).error
    ensures forall q :: UnknownAt(d, q) ==> q == path || Before(path, q)
    decreases d
  {
    if IsUnknown(d) {
      path := [];
      forall q | UnknownAt(d, q) ensures q == [] {}
    } else {
      var i := FirstBadChild(d);
      var c := Child(d, i).value;
      var rest := ErrorIsFirst(c);
      path := [i] + rest;
      forall q | UnknownAt(d, q) ensures q == path || Before(path, q) {
        if q[0] < i {
          GoodHasNoUnknown(Child(d, q[0]).value, q[1..]);
        } else if q[0] == i {
          assert UnknownAt(c, q[1..]) && q == [i] + q[1..];
        }
      }
    }
  }

  lemma FirstBadChild(d: Data) returns (i: nat)
    requires Flatten(d).Err? && !IsUnknown(d)
    ensures Child(d, i).Some? && Flatten(Child(d, i).value) == Err(Flatten(d).error)
    ensures Child(d, i).value < d
    ensures forall k: nat :: k < i ==> Child(d, k).Some? && Flatten(Child(d, k).value).Ok?
  {
    if d.kind == ARRAY { i := FirstBad(d.arr); } else { i := FirstBadPair(d.dict); }
  }

  lemma {:induction false} FirstBad(ds: seq<Data>) returns (i: nat)
    requires FlattenAll(ds).Err?
    ensures i < |ds| && Flatten(ds[i]) == Err(FlattenAll(ds).error)
    ensures forall k :: 0 <= k < i ==> Flatten(ds[k]).Ok?
  {
    var n := |ds| - 1;
    if FlattenAll(ds[..n]).Err? {
      i := FirstBad(ds[..n]);
    } else {
      i := n;
      AllGood(ds[..n]);
      assert forall k :: 0 <= k < n ==> ds[..n][k] == ds[k];
    }
  }

  lemma {:induction false} AllGood(ds: seq<Data>)
    ensures FlattenAll(ds).Ok? <==> forall i :: 0 <= i < |ds| ==> Flatten(ds[i]).Ok?
  {
    if ds != [] {
      var n := |ds| - 1;
      AllGood(ds[..n]);
      assert forall i :: 0 <= i < n ==> ds[..n][i] == ds[i];
    }
  }

  lemma {:induction false} FirstBadPair(ps: seq<Pair>) returns (i: nat)
    requires FlattenPairs(ps).Err?
    ensures i < |ps| && Flatten(ps[i].val) == Err(FlattenPairs(ps).error)
    ensures forall k :: 0 <= k < i ==> Flatten(ps[k].val).Ok?
  {
    var n := |ps| - 1;
    if FlattenPairs(ps[..n]).Err? {
      i := FirstBadPair(ps[..n]);
    } else {
      i := n;
      PairsFlatten(ps[..n]);
      assert forall k :: 0 <= k < n ==> ps[..n][k] == ps[k];
    }
  }

  lemma {:induction false} GoodHasNoUnknown(d: Data, path: seq<nat>)
    requires Flatten(d).Ok?
    ensures !UnknownAt(d, path)
    decreases |path|
  {
    if path != [] && Child(d, path[0]).Some? {
      if d.kind == ARRAY { AllGood(d.arr); } else { PairsFlatten(d.dict); }
      GoodHasNoUnknown(Child(d, path[0]).value, path[1..]);
    }
  }

  /** Flattening fails exactly when an unknown tag is reachable through active children. */
  lemma FailsIff(d: Data)
    ensures Flatten(d).Err? <==> exists path :: UnknownAt(d, path)
  {
    if Flatten(d).Err? {
      var path := ErrorIsFirst(d);
    } else {
      forall path ensures !UnknownAt(d, path) {
        GoodHasNoUnknown(d, path);
      }
    }
  }
}
