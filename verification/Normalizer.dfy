/** migrate_chat_messages_to_parts: stored chat content becomes a list of message parts. */
module Normalizer {
  import opened Common
  import opened Text
  import J = Json

  /** A stored value. Scalars are booleans, numbers and whatever else str() is applied to, by that text. */
  datatype Value =
    | Null
    | Scalar(text: string)
    | Str(text: string)
    | List(items: seq<Value>)
    | Dict(fields: map<string, Value>)

  /** What the script takes from its libraries and from PostgreSQL: `loads` fails on bad JSON and on null, as
    * _try_json_loads does; `repr` is str() of a list or a dict; `same` is == on scalars inside of containers,
    * where 100 equals 100.0 and NaN, of which the JSON reader keeps a single object, equals itself; `cast` is a
    * text cast to jsonb as it is read back, None where the statement raises. */
  datatype Library = Library(
    loads: string -> Option<Value>,
    dumps: Value -> string,
    repr: Value -> string,
    same: (string, string) -> bool,
    cast: string -> Option<Value>)
  {
    ghost predicate Shrinks() {
      forall s :: loads(s).Some? ==> loads(s).value != Null && Rank(loads(s).value) <= |s|
    }

    ghost predicate Reflexive() {
      forall t :: same(t, t)
    }
  }

  type Codec = c: Library | c.Shrinks() && c.Reflexive()
    witness Library(s => None, v => "", v => "", (a, b) => true, s => None)

  /** == on values. */
  predicate Equal(a: Value, b: Value, codec: Codec)
    decreases a
  {
    match a
    case Scalar(t) => b.Scalar? && codec.same(t, b.text)
    case List(items) =>
      b.List? && |items| == |b.items| && forall i :: 0 <= i < |items| ==> Equal(items[i], b.items[i], codec)
    case Dict(fields) =>
      b.Dict? && fields.Keys == b.fields.Keys && forall k :: k in fields ==> Equal(fields[k], b.fields[k], codec)
    case _ => a == b
  }

  lemma {:induction false} EqualToItself(v: Value, codec: Codec)
    ensures Equal(v, v, codec)
    decreases v
  {
    match v
    case List(items) =>
      forall i | 0 <= i < |items|
        ensures Equal(items[i], items[i], codec)
      {
        EqualToItself(items[i], codec);
      }
    case Dict(fields) =>
      forall k | k in fields
        ensures Equal(fields[k], fields[k], codec)
      {
        EqualToItself(fields[k], codec);
      }
    case _ =>
  }

  // ----- The termination measure -----

  ghost function MaxOf(s: set<nat>): (r: nat)
    ensures forall x :: x in s ==> x <= r
    ensures s != {} ==> r in s
  {
    if s == {} then 0
    else
      var x :| x in s;
      var rest := MaxOf(s - {x});
      assert forall y :: y in s ==> y == x || y in s - {x};
      if s == {x} || x > rest then x else rest
  }

  /** A text can hide a value of at most its own length; a container is above all it contains. */
  ghost function Rank(v: Value): nat
    decreases v, 1
  {
    match v
    case Str(s) => |s| + 1
    case List(items) => 1 + MaxOf(ItemRanks(items))
    case Dict(fields) => 1 + MaxOf(FieldRanks(v))
    case _ => 0
  }

  ghost function ItemRanks(items: seq<Value>): set<nat>
    decreases items, 0
  {
    set i | 0 <= i < |items| :: Rank(items[i])
  }

  ghost function FieldRanks(v: Value): set<nat>
    requires v.Dict?
    decreases v, 0
  {
    set k | k in v.fields :: Rank(v.fields[k])
  }

  lemma RankOfItem(items: seq<Value>, i: nat)
    requires i < |items|
    ensures Rank(items[i]) < Rank(List(items))
  {
    assert Rank(items[i]) in ItemRanks(items);
  }

  lemma RankOfField(fields: map<string, Value>, k: string)
    requires k in fields
    ensures Rank(fields[k]) < Rank(Dict(fields))
  {
    assert Rank(fields[k]) in FieldRanks(Dict(fields));
  }

  lemma RankOfPrefix(items: seq<Value>, n: nat)
    requires n <= |items|
    ensures Rank(List(items[..n])) <= Rank(List(items))
  {
    forall x | x in ItemRanks(items[..n])
      ensures x in ItemRanks(items)
    {
      var i :| 0 <= i < n && x == Rank(items[..n][i]);
      assert x == Rank(items[i]);
    }
  }

  // ----- _normalize_part -----

  const TYPE := "type"
  const TEXT := "text"

  function Shown(v: Value, codec: Codec): string {
    match v
    case Null => ""
    case Scalar(t) => t
    case Str(t) => t
    case _ => codec.repr(v)
  }

  function TextPart(text: string): Value {
    Dict(map[TYPE := Str(TEXT), TEXT := Str(text)])
  }

  function PartType(fields: map<string, Value>): Option<string> {
    if TYPE in fields && fields[TYPE].Str? then Some(fields[TYPE].text) else None
  }

  function PartText(fields: map<string, Value>): Value {
    if TEXT in fields then fields[TEXT] else if "content" in fields then fields["content"] else Null
  }

  predicate IsEnvelope(fields: map<string, Value>) {
    ("parts" in fields && fields["parts"].List?) || ("role" in fields && "content" in fields)
  }

  function Normalize(v: Value, codec: Codec): seq<Value>
    decreases Rank(v), 1, 0
  {
    match v
    case Null => []
    case List(items) => NormalizeItems(items, codec)
    case Str(s) =>
      var stripped := Strip(s);
      var parsed := codec.loads(stripped);
      if stripped == [] then []
      else if parsed.None? then [TextPart(s)]
      else if parsed.value.Str? then [TextPart(parsed.value.text)]
      else
        StripNotLonger(s);
        assert Rank(parsed.value) <= |stripped|;
        Normalize(parsed.value, codec)
    case Dict(fields) =>
      if "parts" in fields && fields["parts"].List? then
        RankOfField(fields, "parts");
        Normalize(fields["parts"], codec)
      else if "role" in fields && "content" in fields then
        RankOfField(fields, "content");
        Normalize(fields["content"], codec)
      else if PartType(fields) == Some(TEXT) then [TextPart(Shown(PartText(fields), codec))]
      else if PartType(fields).Some? && PartType(fields) != Some("message") then [v]
      else if "content" in fields then
        RankOfField(fields, "content");
        Normalize(fields["content"], codec)
      else if TEXT in fields && fields[TEXT].Str? then [TextPart(fields[TEXT].text)]
      else [TextPart(codec.dumps(v))]
    case Scalar(t) => [TextPart(t)]
  }

  function NormalizeItems(items: seq<Value>, codec: Codec): seq<Value>
    decreases Rank(List(items)), 0, |items|
  {
    if items == [] then []
    else
      var last := |items| - 1;
      RankOfPrefix(items, last);
      RankOfItem(items, last);
      NormalizeItems(items[..last], codec) + Normalize(items[last], codec)
  }

  lemma StripNotLonger(s: string)
    ensures |Strip(s)| <= |s|
  {
    var i := StripCuts(s);
  }

  // ----- Canonical output -----

  /** A text part, or a typed part of another kind that is no envelope. */
  predicate Canonical(v: Value) {
    && v.Dict?
    && ( || (TEXT in v.fields && v.fields[TEXT].Str? && v == TextPart(v.fields[TEXT].text))
         || (PartType(v.fields).Some? && PartType(v.fields) != Some(TEXT) && PartType(v.fields) != Some("message")
             && !IsEnvelope(v.fields)))
  }

  predicate AllCanonical(vs: seq<Value>) {
    forall i :: 0 <= i < |vs| ==> Canonical(vs[i])
  }

  lemma {:induction false} NormalizedIsCanonical(v: Value, codec: Codec)
    ensures AllCanonical(Normalize(v, codec))
    decreases Rank(v), 1, 0
  {
    match v
    case List(items) => NormalizedItemsAreCanonical(items, codec);
    case Str(s) =>
      var parsed := codec.loads(Strip(s));
      if Strip(s) != [] && parsed.Some? && !parsed.value.Str? {
        StripNotLonger(s);
        assert Rank(parsed.value) <= |Strip(s)|;
        NormalizedIsCanonical(parsed.value, codec);
      }
    case Dict(fields) => NormalizedDictIsCanonical(fields, codec);
    case _ =>
  }

  lemma {:induction false} NormalizedDictIsCanonical(fields: map<string, Value>, codec: Codec)
    ensures AllCanonical(Normalize(Dict(fields), codec))
    decreases Rank(Dict(fields)), 0, 0
  {
    if "parts" in fields && fields["parts"].List? {
      RankOfField(fields, "parts");
      NormalizedIsCanonical(fields["parts"], codec);
    } else if "content" in fields {
      RankOfField(fields, "content");
      NormalizedIsCanonical(fields["content"], codec);
    }
  }

  lemma {:induction false} NormalizedItemsAreCanonical(items: seq<Value>, codec: Codec)
    ensures AllCanonical(NormalizeItems(items, codec))
    decreases Rank(List(items)), 0, |items|
  {
    if items != [] {
      var last := |items| - 1;
      RankOfPrefix(items, last);
      RankOfItem(items, last);
      NormalizedItemsAreCanonical(items[..last], codec);
      NormalizedIsCanonical(items[last], codec);
    }
  }

  lemma CanonicalStays(v: Value, codec: Codec)
    requires Canonical(v)
    ensures Normalize(v, codec) == [v]
  {
  }

  lemma {:induction false} CanonicalItemsStay(vs: seq<Value>, codec: Codec)
    requires AllCanonical(vs)
    ensures NormalizeItems(vs, codec) == vs
    decreases |vs|
  {
    if vs != [] {
      var before, last := LastCanonical(vs);
      CanonicalItemsStay(before, codec);
      OneMoreStays(before, last, codec);
    }
  }

  lemma LastCanonical(vs: seq<Value>) returns (before: seq<Value>, last: Value)
    requires AllCanonical(vs) && vs != []
    ensures vs == before + [last] && |before| < |vs| && AllCanonical(before) && Canonical(last)
  {
    before, last := LastOf(vs);
  }

  lemma OneMoreStays(before: seq<Value>, last: Value, codec: Codec)
    requires NormalizeItems(before, codec) == before && Canonical(last)
    ensures NormalizeItems(before + [last], codec) == before + [last]
  {
    CanonicalStays(last, codec);
    assert (before + [last])[..|before|] == before;
  }

  lemma CanonicalListStays(vs: seq<Value>, codec: Codec)
    requires AllCanonical(vs)
    ensures Normalize(List(vs), codec) == vs
  {
    CanonicalItemsStay(vs, codec);
  }

  lemma NormalizeIsIdempotent(v: Value, codec: Codec)
    ensures Normalize(List(Normalize(v, codec)), codec) == Normalize(v, codec)
  {
    NormalizedIsCanonical(v, codec);
    CanonicalListStays(Normalize(v, codec), codec);
  }

  // ----- needs_update -----

  /** _decode_existing_content */
  function Decode(v: Value, codec: Codec): Value {
    if !v.Str? then v
    else if Strip(v.text) == [] then Str("")
    else if codec.loads(Strip(v.text)).Some? then codec.loads(Strip(v.text)).value
    else v
  }

  predicate NeedsUpdate(v: Value, codec: Codec) {
    !Equal(Decode(v, codec), List(Normalize(v, codec)), codec)
  }

  /** Equal dictionaries have the same keys, and the same texts and lists behind them. */
  lemma EqualField(a: map<string, Value>, b: map<string, Value>, k: string, codec: Codec)
    requires Equal(Dict(a), Dict(b), codec)
    ensures k in a <==> k in b
    ensures k in a ==> (a[k].List? <==> b[k].List?) && (a[k].Str? <==> b[k].Str?) && (a[k].Str? ==> a[k] == b[k])
  {
    if k in a {
      assert Equal(a[k], b[k], codec);
    }
  }

  lemma EqualToTextPart(a: map<string, Value>, text: string, codec: Codec)
    requires Equal(Dict(a), TextPart(text), codec)
    ensures Dict(a) == TextPart(text)
  {
    EqualField(a, TextPart(text).fields, TYPE, codec);
    EqualField(a, TextPart(text).fields, TEXT, codec);
    assert a == TextPart(text).fields;
  }

  lemma EqualToCanonical(a: Value, b: Value, codec: Codec)
    requires Equal(a, b, codec) && Canonical(b)
    ensures Canonical(a)
  {
    if PartType(b.fields) == Some(TEXT) {
      EqualToTextPart(a.fields, b.fields[TEXT].text, codec);
    } else {
      EqualField(a.fields, b.fields, TYPE, codec);
      EqualField(a.fields, b.fields, "parts", codec);
      EqualField(a.fields, b.fields, "role", codec);
      EqualField(a.fields, b.fields, "content", codec);
    }
  }

  /** What equals normalised parts consists of canonical parts. */
  lemma EqualToNormalized(d: Value, v: Value, codec: Codec)
    requires Equal(d, List(Normalize(v, codec)), codec)
    ensures d.List? && AllCanonical(d.items)
  {
    NormalizedIsCanonical(v, codec);
    forall i | 0 <= i < |d.items|
      ensures Canonical(d.items[i])
    {
      EqualToCanonical(d.items[i], Normalize(v, codec)[i], codec);
    }
  }

  lemma DecodedListStays(v: Value, codec: Codec)
    requires Decode(v, codec).List? && AllCanonical(Decode(v, codec).items)
    ensures Decode(v, codec) == List(Normalize(v, codec))
  {
    CanonicalListStays(Decode(v, codec).items, codec);
  }

  /** A row is left alone exactly when what it holds, decoded once, is a list of canonical parts; and then these
    * are its normalised parts to the letter. */
  lemma NeedsUpdateIff(v: Value, codec: Codec)
    ensures !NeedsUpdate(v, codec) <==> Decode(v, codec).List? && AllCanonical(Decode(v, codec).items)
    ensures !NeedsUpdate(v, codec) <==> Decode(v, codec) == List(Normalize(v, codec))
  {
    var d := Decode(v, codec);
    if d.List? && AllCanonical(d.items) {
      DecodedListStays(v, codec);
      EqualToItself(d, codec);
    }
    if Equal(d, List(Normalize(v, codec)), codec) {
      EqualToNormalized(d, v, codec);
    }
    if d == List(Normalize(v, codec)) {
      EqualToItself(d, codec);
    }
  }

  /** What is stored for the parts: their JSON text, in a jsonb column cast, which may raise. */
  function Stored(parts: seq<Value>, jsonb: bool, codec: Codec): Option<Value> {
    var s := codec.dumps(List(parts));
    if jsonb then codec.cast(s) else Some(Str(s))
  }

  predicate Castable(parts: seq<Value>, codec: Codec) {
    codec.cast(codec.dumps(List(parts))).Some?
  }

  /** Whatever is stored for the parts of `v` and read as equal to them needs no further update. */
  lemma StoredIsSettled(v: Value, stored: Value, codec: Codec)
    requires Equal(Decode(stored, codec), List(Normalize(v, codec)), codec)
    ensures !NeedsUpdate(stored, codec) && Decode(stored, codec) == List(Normalize(stored, codec))
  {
    EqualToNormalized(Decode(stored, codec), v, codec);
    NeedsUpdateIff(stored, codec);
  }

  // ----- A loader that reads JSON does shrink -----

  function Spelled(cs: seq<J.Char>, unicode: string -> char): (r: string)
    ensures |r| <= |cs|
  {
    if cs == [] then ""
    else if cs[0].Unicode? && |cs| > 1 && cs[1].Unicode? && Surrogates(cs[0].digits, cs[1].digits) then
      [unicode(cs[0].digits + cs[1].digits)] + Spelled(cs[2..], unicode)
    else [Unescaped(cs[0], unicode)] + Spelled(cs[1..], unicode)
  }

  predicate Surrogates(a: string, b: string) {
    |a| == 4 && |b| == 4 && a[0] in "dD" && a[1] in "89aAbB" && b[0] in "dD" && b[1] in "cCdDeEfF"
  }

  function Unescaped(c: J.Char, unicode: string -> char): char {
    match c
    case Plain(x) => x
    case Short('b') => '\U{0008}'
    case Short('f') => '\U{000c}'
    case Short('n') => '\n'
    case Short('r') => '\r'
    case Short('t') => '\t'
    case Short(x) => x
    case Unicode(d) => unicode(d)
  }

  /** The value of a JSON text; a repeated key keeps its last value. */
  function Meaning(j: J.Json, unicode: string -> char, number: string -> string): Value {
    match j
    case Null => Null
    case True => Scalar("True")
    case False => Scalar("False")
    case Number(text) => Scalar(number(text))
    case String(cs) => Str(Spelled(cs, unicode))
    case Array(_, items) => List(ItemMeanings(items, unicode, number))
    case Object(_, members) => Dict(MemberMeanings(members, unicode, number))
  }

  function ItemMeanings(items: J.Items, unicode: string -> char, number: string -> string): seq<Value> {
    if items.NoItems? then []
    else [Meaning(items.value, unicode, number)] + ItemMeanings(items.rest, unicode, number)
  }

  function MemberMeanings(ms: J.Members, unicode: string -> char, number: string -> string): map<string, Value> {
    if ms.NoMembers? then map[]
    else map[Spelled(ms.key, unicode) := Meaning(ms.value, unicode, number)] + MemberMeanings(ms.rest, unicode, number)
  }

  lemma {:induction false} SpelledFits(cs: seq<J.Char>)
    requires J.ValidChars(cs)
    ensures |cs| <= |J.PrintChars(cs)|
  {
    if cs != [] {
      SpelledFits(cs[1..]);
      assert J.ValidChar(cs[0]);
    }
  }

  lemma {:induction false} MeaningFits(j: J.Json, unicode: string -> char, number: string -> string)
    requires J.Valid(j)
    ensures Rank(Meaning(j, unicode, number)) <= |J.Print(j)|
  {
    match j
    case String(cs) => SpelledFits(cs);
    case Array(_, items) =>
      ItemMeaningsFit(items, unicode, number);
    case Object(_, members) =>
      MemberMeaningsFit(members, unicode, number);
    case _ =>
  }

  lemma {:induction false} ItemMeaningsFit(items: J.Items, unicode: string -> char, number: string -> string)
    requires J.ValidItems(items)
    ensures forall i :: 0 <= i < |ItemMeanings(items, unicode, number)| ==>
              Rank(ItemMeanings(items, unicode, number)[i]) <= |J.PrintItems(items)|
  {
    if items.Item? {
      MeaningFits(items.value, unicode, number);
      ItemMeaningsFit(items.rest, unicode, number);
    }
  }

  lemma {:induction false} MemberMeaningsFit(ms: J.Members, unicode: string -> char, number: string -> string)
    requires J.ValidMembers(ms)
    ensures forall k :: k in MemberMeanings(ms, unicode, number) ==>
              Rank(MemberMeanings(ms, unicode, number)[k]) <= |J.PrintMembers(ms)|
  {
    if ms.Member? {
      MeaningFits(ms.value, unicode, number);
      MemberMeaningsFit(ms.rest, unicode, number);
    }
  }

  /** `loads` reads JSON: what it accepts is the print of a valid text, and it returns that text's value. */
  ghost predicate ReadsJson(loads: string -> Option<Value>, unicode: string -> char, number: string -> string) {
    forall s :: loads(s).Some? ==>
      exists j :: J.Valid(j) && J.Print(j) == s && Meaning(j, unicode, number) == loads(s).value && !j.Null?
  }

  /** So the normaliser's recursion through embedded JSON texts ends for every JSON loader. */
  lemma JsonLoaderShrinks(lib: Library, unicode: string -> char, number: string -> string)
    requires ReadsJson(lib.loads, unicode, number)
    ensures lib.Shrinks()
  {
    forall s | lib.loads(s).Some?
      ensures lib.loads(s).value != Null && Rank(lib.loads(s).value) <= |s|
    {
      var j :| J.Valid(j) && J.Print(j) == s && Meaning(j, unicode, number) == lib.loads(s).value && !j.Null?;
      MeaningFits(j, unicode, number);
    }
  }
}
