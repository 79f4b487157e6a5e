/** The job-creation page's handling of the LLM's reply: removing a
    Markdown code fence around the JSON, coercing the decoded object to the
    expected string and list fields, and joining list values for display.

    JSON values are a datatype; Python's `str()` is written out for
    scalars and is a parameter (`repr`) for lists and objects. */
module CreateJob {
  import opened Base
  import opened Text

  datatype Json =
    | JNull
    | JBool(b: bool)
    | JInt(i: int)
    | JStr(s: string)
    | JList(items: seq<Json>)
    | JObj(fields: map<string, Json>)

  /** Python truthiness. */
  predicate Truthy(v: Json) {
    match v
    case JNull => false
    case JBool(b) => b
    case JInt(i) => i != 0
    case JStr(s) => s != []
    case JList(items) => items != []
    case JObj(fields) => fields != map[]
  }

  function IntToString(i: int): string {
    if i < 0 then "-" + NatToString(-i) else NatToString(i)
  }

  /** Python `str(v)`; lists and objects are printed by `repr`. */
  function Str(v: Json, repr: Json -> string): (r: string)
    ensures v.JStr? ==> r == v.s
  {
    match v
    case JNull => "None"
    case JBool(b) => if b then "True" else "False"
    case JInt(i) => IntToString(i)
    case JStr(s) => s
    case JList(_) => repr(v)
    case JObj(_) => repr(v)
  }

  // ---------------------------------------------------------------------
  // Flattening

  /** What one item contributes: the `str` of each element of a list item,
      or the `str` of the item itself. */
  function Piece(item: Json, repr: Json -> string): (r: seq<string>)
    ensures !item.JList? ==> r == [Str(item, repr)]
    ensures item.JList? ==> |r| == |item.items|
  {
    match item
    case JList(xs) => seq(|xs|, k requires 0 <= k < |xs| => Str(xs[k], repr))
    case _ => [Str(item, repr)]
  }

  /** The items flattened one level deep, each made a string. */
  function Flatten(items: seq<Json>, repr: Json -> string): seq<string> {
    if items == [] then []
    else Flatten(items[..|items| - 1], repr) + Piece(items[|items| - 1], repr)
  }

  /** How many strings an item contributes. */
  function Width(item: Json): nat {
    if item.JList? then |item.items| else 1
  }

  function TotalWidth(items: seq<Json>): nat {
    if items == [] then 0 else TotalWidth(items[..|items| - 1]) + Width(items[|items| - 1])
  }

  /** Flattening keeps every element: a list item gives its elements, any
      other item one string. */
  lemma {:induction false} FlattenLength(items: seq<Json>, repr: Json -> string)
    ensures |Flatten(items, repr)| == TotalWidth(items)
  {
    if items != [] {
      FlattenLength(items[..|items| - 1], repr);
    }
  }

  function JStrs(xs: seq<string>): (r: seq<Json>)
    ensures |r| == |xs| && forall k :: 0 <= k < |xs| ==> r[k] == JStr(xs[k])
  {
    seq(|xs|, k requires 0 <= k < |xs| => JStr(xs[k]))
  }

  /** A flat list of strings flattens to those strings. */
  lemma {:induction false} FlattenStrings(xs: seq<string>, repr: Json -> string)
    ensures Flatten(JStrs(xs), repr) == xs
  {
    if xs != [] {
      var init, last := xs[..|xs| - 1], xs[|xs| - 1];
      var js := JStrs(xs);
      assert js[..|xs| - 1] == JStrs(init);
      assert js[|xs| - 1] == JStr(last);
      FlattenStrings(init, repr);
      assert Flatten(js, repr) == init + [last];
      PrefixStep(xs, |xs| - 1);
      WholePrefix(xs);
    }
  }

  /** The flattening loop shared by `safe_join_list` and
      `validate_parsed_data`. */
  method FlattenItems(items: seq<Json>, repr: Json -> string) returns (flattened: seq<string>)
    ensures flattened == Flatten(items, repr)
    ensures |flattened| == TotalWidth(items)
  {
    flattened := [];
    for i := 0 to |items|
      invariant flattened == Flatten(items[..i], repr)
    {
      assert items[..i + 1][..i] == items[..i];
      match items[i]
      case JList(xs) =>
        flattened := flattened + seq(|xs|, k requires 0 <= k < |xs| => Str(xs[k], repr));
      case _ =>
        flattened := flattened + [Str(items[i], repr)];
    }
    assert items[..|items|] == items;
    FlattenLength(items, repr);
  }

  // ---------------------------------------------------------------------
  // safe_join_list

  /** `safe_join_list`: "" for a falsy value, `str` of a non-list, and the
      flattened items joined with the separator for a list. */
  method SafeJoinList(data: Json, separator: string, repr: Json -> string) returns (s: string)
    ensures !Truthy(data) ==> s == ""
    ensures Truthy(data) && !data.JList? ==> s == Str(data, repr)
    ensures Truthy(data) && data.JList? ==> s == Join(separator, Flatten(data.items, repr))
  {
    if !Truthy(data) {
      return "";
    }
    if !data.JList? {
      return Str(data, repr);
    }
    var flattened := FlattenItems(data.items, repr);
    s := Join(separator, flattened);
  }

  /** A list of strings is joined as it stands, and a non-empty string is
      returned unchanged. */
  lemma SafeJoinOfStrings(xs: seq<string>, separator: string, repr: Json -> string)
    ensures xs != [] ==> Join(separator, Flatten(JStrs(xs), repr)) == Join(separator, xs)
    ensures forall s :: s != [] ==> Truthy(JStr(s)) && Str(JStr(s), repr) == s
  {
    FlattenStrings(xs, repr);
  }

  // ---------------------------------------------------------------------
  // validate_parsed_data

  const StringFields: seq<string> := [
    "job_title", "company_name", "location", "job_description",
    "experience_required", "education_requirements", "employment_type",
    "salary_range", "department", "posted_by"]

  const ArrayFields: seq<string> := ["required_skills", "optional_skills", "benefits", "responsibilities"]

  /** A string field: `str(value)` when present and truthy, else "". */
  function StringFieldValue(data: map<string, Json>, field: string, repr: Json -> string): string {
    if field in data && Truthy(data[field]) then Str(data[field], repr) else ""
  }

  /** A list field: a list flattened and made strings, any other truthy
      value as a one-element list, else the empty list. */
  function ArrayFieldValue(data: map<string, Json>, field: string, repr: Json -> string): seq<string> {
    if field !in data then []
    else if data[field].JList? then Flatten(data[field].items, repr)
    else if Truthy(data[field]) then [Str(data[field], repr)]
    else []
  }

  predicate IsStringField(f: string) { f in StringFields }

  predicate IsArrayField(f: string) { f in ArrayFields }

  /** The cleaned object: exactly the fourteen expected fields, each of its
      expected type; everything else in the reply is dropped. */
  function Cleaned(data: map<string, Json>, repr: Json -> string): map<string, Json> {
    map f | f in StringFields + ArrayFields ::
      if IsStringField(f) then JStr(StringFieldValue(data, f, repr)) else JList(JStrs(ArrayFieldValue(data, f, repr)))
  }

  lemma FieldsDisjoint()
    ensures forall f :: IsStringField(f) ==> !IsArrayField(f)
  {
  }

  /** The cleaned object has exactly the ten string fields and the four
      list fields: each string field holds a string, each list field a list
      of strings. */
  lemma CleanedShape(data: map<string, Json>, repr: Json -> string)
    ensures var c := Cleaned(data, repr);
      && c.Keys == (set f | f in StringFields) + (set f | f in ArrayFields)
      && |StringFields| == 10 && |ArrayFields| == 4
      && (forall f :: f in StringFields ==> f !in ArrayFields)
      && (forall f :: f in StringFields ==> c[f].JStr?)
      && (forall f :: f in ArrayFields ==> c[f].JList? && forall k :: 0 <= k < |c[f].items| ==> c[f].items[k].JStr?)
      && (forall f :: f in StringFields && (f !in data || !Truthy(data[f])) ==> c[f] == JStr(""))
  {
    FieldsDisjoint();
    var c := Cleaned(data, repr);
    assert c.Keys == (set f | f in StringFields) + (set f | f in ArrayFields);
  }

  /** Cleaning cleaned data changes nothing. */
  lemma CleanedIdempotent(data: map<string, Json>, repr: Json -> string)
    ensures Cleaned(Cleaned(data, repr), repr) == Cleaned(data, repr)
  {
    var c := Cleaned(data, repr);
    forall f | f in StringFields + ArrayFields
      ensures Cleaned(c, repr)[f] == c[f]
    {
      CleanedFieldStable(data, repr, f);
    }
  }

  /** One expected field keeps its value under a second cleaning. */
  lemma CleanedFieldStable(data: map<string, Json>, repr: Json -> string, f: string)
    requires f in StringFields + ArrayFields
    ensures Cleaned(Cleaned(data, repr), repr)[f] == Cleaned(data, repr)[f]
  {
    var c := Cleaned(data, repr);
    if IsStringField(f) {
      assert c[f] == JStr(StringFieldValue(data, f, repr));
    } else {
      var xs := ArrayFieldValue(data, f, repr);
      assert c[f] == JList(JStrs(xs));
      FlattenStrings(xs, repr);
      assert ArrayFieldValue(c, f, repr) == (if JStrs(xs) == [] then [] else xs);
    }
  }

  /** The loop over the string fields. */
  method AddStringFields(cleaned0: map<string, Json>, fields: seq<string>, data: map<string, Json>, repr: Json -> string)
    returns (cleaned: map<string, Json>)
    ensures cleaned.Keys == cleaned0.Keys + set f | f in fields
    ensures forall f :: f in fields ==> cleaned[f] == JStr(StringFieldValue(data, f, repr))
    ensures forall f :: f in cleaned0 && f !in fields ==> cleaned[f] == cleaned0[f]
  {
    cleaned := cleaned0;
    for i := 0 to |fields|
      invariant cleaned.Keys == cleaned0.Keys + set k | 0 <= k < i :: fields[k]
      invariant forall k :: 0 <= k < i ==> cleaned[fields[k]] == JStr(StringFieldValue(data, fields[k], repr))
      invariant forall f :: f in cleaned0 && f !in fields[..i] ==> cleaned[f] == cleaned0[f]
    {
      var field := fields[i];
      var value := StringItem(data, field, repr);
      cleaned := cleaned[field := JStr(value)];
      assert fields[..i + 1] == fields[..i] + [field];
    }
    assert fields[..|fields|] == fields;
  }

  /** The value of one string field: `str(value)` when present and truthy,
      else "". */
  method StringItem(data: map<string, Json>, field: string, repr: Json -> string) returns (value: string)
    ensures value == StringFieldValue(data, field, repr)
  {
    var raw := if field in data then data[field] else JStr("");
    value := if Truthy(raw) then Str(raw, repr) else "";
  }

  /** The loop over the list fields. */
  method AddArrayFields(cleaned0: map<string, Json>, fields: seq<string>, data: map<string, Json>, repr: Json -> string)
    returns (cleaned: map<string, Json>)
    ensures cleaned.Keys == cleaned0.Keys + set f | f in fields
    ensures forall f :: f in fields ==> cleaned[f] == JList(JStrs(ArrayFieldValue(data, f, repr)))
    ensures forall f :: f in cleaned0 && f !in fields ==> cleaned[f] == cleaned0[f]
  {
    cleaned := cleaned0;
    for i := 0 to |fields|
      invariant cleaned.Keys == cleaned0.Keys + set k | 0 <= k < i :: fields[k]
      invariant forall k :: 0 <= k < i ==> cleaned[fields[k]] == JList(JStrs(ArrayFieldValue(data, fields[k], repr)))
      invariant forall f :: f in cleaned0 && f !in fields[..i] ==> cleaned[f] == cleaned0[f]
    {
      var field := fields[i];
      var items := ArrayItems(data, field, repr);
      cleaned := cleaned[field := JList(JStrs(items))];
      assert fields[..i + 1] == fields[..i] + [field];
    }
    assert fields[..|fields|] == fields;
  }

  /** The value of one list field: `[str(x) for x in flatten(value)]` for a
      list, `[str(value)]` for another truthy value, else []. */
  method ArrayItems(data: map<string, Json>, field: string, repr: Json -> string) returns (items: seq<string>)
    ensures items == ArrayFieldValue(data, field, repr)
  {
    var value := if field in data then data[field] else JList([]);
    if value.JList? {
      items := FlattenItems(value.items, repr);
    } else {
      items := if Truthy(value) then [Str(value, repr)] else [];
    }
  }

  /** `validate_parsed_data`: the string fields, then the list fields. */
  method ValidateParsedData(data: map<string, Json>, repr: Json -> string) returns (cleaned: map<string, Json>)
    ensures cleaned == Cleaned(data, repr)
    ensures forall f :: f in StringFields ==> cleaned[f] == JStr(StringFieldValue(data, f, repr))
    ensures forall f :: f in ArrayFields ==> cleaned[f] == JList(JStrs(ArrayFieldValue(data, f, repr)))
  {
    var strings := AddStringFields(map[], StringFields, data, repr);
    cleaned := AddArrayFields(strings, ArrayFields, data, repr);
    FieldsDisjoint();
    assert cleaned.Keys == Cleaned(data, repr).Keys;
  }

  // ---------------------------------------------------------------------
  // Code fence

  const FenceOpen := "```json"
  const FenceClose := "```"

  /** The reply cleaned before `json.loads`: stripped, a leading "```json"
      and a trailing "```" removed, stripped again. */
  function StripFence(reply: string): (r: string)
    ensures Trimmed(r) && |r| <= |reply|
  {
    var t := Strip(reply);
    var t := if StartsWith(t, FenceOpen) then t[|FenceOpen|..] else t;
    var t := if EndsWith(t, FenceClose) then t[..|t| - |FenceClose|] else t;
    Strip(t)
  }

  /** A body wrapped in a ```json fence. */
  function Fenced(body: string): string { FenceOpen + body + FenceClose }

  lemma FencedIsTrimmed(body: string)
    ensures Strip(Fenced(body)) == Fenced(body)
  {
    var s := Fenced(body);
    assert s[0] == '`';
    assert s[|s| - 1] == '`';
    StripTrimmed(s);
  }

  lemma FencedOpens(body: string)
    ensures StartsWith(Fenced(body), FenceOpen) && Fenced(body)[|FenceOpen|..] == body + FenceClose
  {
    var s := Fenced(body);
    assert s[..|FenceOpen|] == FenceOpen;
  }

  lemma ClosesWithFence(t: string, body: string)
    requires t == body + FenceClose
    ensures EndsWith(t, FenceClose) && t[..|t| - |FenceClose|] == body
  {
  }

  /** A fenced body comes out stripped. */
  lemma StripFenceOfFenced(body: string)
    ensures StripFence(Fenced(body)) == Strip(body)
  {
    var reply := Fenced(body);
    FencedIsTrimmed(body);
    FencedOpens(body);
    var t0 := Strip(reply);
    assert t0 == reply;
    assert StartsWith(t0, FenceOpen);
    var t1 := t0[|FenceOpen|..];
    ClosesWithFence(t1, body);
    var t2 := t1[..|t1| - |FenceClose|];
    assert t2 == body;
  }

  /** A trimmed reply with no fence at either end is kept as it is. */
  lemma StripFenceOfPlain(reply: string)
    requires Trimmed(reply) && !StartsWith(reply, FenceOpen) && !EndsWith(reply, FenceClose)
    ensures StripFence(reply) == reply
  {
    StripTrimmed(reply);
  }
}
