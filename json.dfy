/** The JSON data model that `serde_json` maps Rust values onto, and its compact
    textual form as produced by `serde_json::to_string`. */
module Json {

  /** A JSON value. An object keeps its members in order, duplicates included, since
      `serde_json` writes members in declaration order and a derived `Deserialize`
      sees them one by one. */
  datatype Json =
    | Null
    | Bool(b: bool)
    | Int(i: int)
    | Str(s: string)
    | Arr(elems: seq<Json>)
    | Obj(members: seq<(string, Json)>)

  predicate IsDigit(c: char) {
    '0' <= c <= '9'
  }

  function DigitChar(d: nat): (c: char)
    requires d < 10
    ensures IsDigit(c) && (c == '0' <==> d == 0)
  {
    ('0' as int + d) as char
  }

  function DigitOf(c: char): (d: nat)
    requires IsDigit(c)
    ensures d < 10 && DigitChar(d) == c
  {
    c as int - '0' as int
  }

  /** The decimal digits of a natural number, most significant first. */
  function NatText(n: nat): (s: string)
    ensures |s| > 0 && forall i :: 0 <= i < |s| ==> IsDigit(s[i])
    decreases n
  {
    if n < 10 then [DigitChar(n)] else NatText(n / 10) + [DigitChar(n % 10)]
  }

  /** The number a string of decimal digits denotes. */
  function DigitsValue(s: string): nat
    requires forall i :: 0 <= i < |s| ==> IsDigit(s[i])
  {
    if s == [] then 0 else DigitsValue(s[..|s| - 1]) * 10 + DigitOf(s[|s| - 1])
  }

  /** The digits written for a number are decimal digits with no leading zero, and
      reading them back yields the number. */
  lemma {:induction false} NatTextRoundTrip(n: nat)
    ensures NatText(n)[0] == '0' <==> n == 0
    ensures DigitsValue(NatText(n)) == n
  {
    if n >= 10 {
      NatTextRoundTrip(n / 10);
      var s := NatText(n);
      assert s[..|s| - 1] == NatText(n / 10);
      assert s[0] == NatText(n / 10)[0];
    }
  }

  /** How `serde_json` writes an integer: an optional minus sign and the digits. */
  function IntText(i: int): string {
    if i < 0 then "-" + NatText(-i) else NatText(i)
  }

  /** A string literal. `serde_json` also escapes quotes, backslashes and control
      characters; no string this protocol writes contains one (every one is a Rust
      identifier), and escaping is left out of this model. */
  function Quote(s: string): string {
    "\"" + s + "\""
  }

  /** `serde_json::to_string`: the compact text of a value, with no whitespace; no
      value is written as nothing. */
  function Text(j: Json): (s: string)
    ensures |s| > 0
    decreases j, 1
  {
    match j
    case Null => "null"
    case Bool(b) => if b then "true" else "false"
    case Int(i) => IntText(i)
    case Str(s) => Quote(s)
    case Arr(elems) => "[" + ElemsText(j, 0) + "]"
    case Obj(members) => "{" + MembersText(j, 0) + "}"
  }

  /** The first character of a value's text tells which kind of value follows,
      which is how a reader dispatches. */
  lemma TextFirstChar(j: Json)
    ensures Text(j)[0] == '{' <==> j.Obj?
    ensures Text(j)[0] == '[' <==> j.Arr?
    ensures Text(j)[0] == '"' <==> j.Str?
  {
  }

  /** The elements of an array from index `k` on, comma separated. */
  function ElemsText(j: Json, k: nat): string
    requires j.Arr? && k <= |j.elems|
    decreases j, 0, |j.elems| - k
  {
    if k == |j.elems| then ""
    else
      assert j.elems[k] in j.elems;
      (if k == 0 then "" else ",") + Text(j.elems[k]) + ElemsText(j, k + 1)
  }

  /** The members of an object from index `k` on, as `"key":value`, comma separated. */
  function MembersText(j: Json, k: nat): string
    requires j.Obj? && k <= |j.members|
    decreases j, 0, |j.members| - k
  {
    if k == |j.members| then ""
    else
      assert j.members[k] in j.members;
      (if k == 0 then "" else ",") + Quote(j.members[k].0) + ":" + Text(j.members[k].1)
        + MembersText(j, k + 1)
  }

  /** One step of writing an object's members. */
  lemma MembersTextStep(j: Json, k: nat)
    requires j.Obj? && k < |j.members|
    ensures MembersText(j, k)
              == (if k == 0 then "" else ",") + Quote(j.members[k].0) + ":" + Text(j.members[k].1)
                 + MembersText(j, k + 1)
  {
  }

  /** The text of a one-member object. */
  lemma ObjText1(k: string, v: Json)
    ensures Text(Obj([(k, v)])) == "{" + Quote(k) + ":" + Text(v) + "}"
  {
    var j := Obj([(k, v)]);
    MembersTextStep(j, 0);
    assert MembersText(j, 1) == "";
  }

  /** The text of a two-member object. */
  lemma ObjText2(k1: string, v1: Json, k2: string, v2: Json)
    ensures Text(Obj([(k1, v1), (k2, v2)]))
              == "{" + Quote(k1) + ":" + Text(v1) + "," + Quote(k2) + ":" + Text(v2) + "}"
  {
    var j := Obj([(k1, v1), (k2, v2)]);
    MembersTextStep(j, 0);
    MembersTextStep(j, 1);
    assert MembersText(j, 2) == "";
    Regroup(Quote(k1), Text(v1), Quote(k2), Text(v2));
  }

  lemma Regroup(a: string, b: string, c: string, d: string)
    ensures "{" + (("" + a + ":" + b) + ("," + c + ":" + d + "")) + "}"
            == "{" + a + ":" + b + "," + c + ":" + d + "}"
  {
  }

  /** The text of a one-member object, given the member's text. */
  lemma ObjText1Of(k: string, v: Json, t: string)
    requires Text(v) == t
    ensures Text(Obj([(k, v)])) == "{\"" + k + "\":" + t + "}"
  {
    ObjText1(k, v);
    Regroup1(k, t);
  }

  lemma Regroup1(k: string, t: string)
    ensures "{" + ("\"" + k + "\"") + ":" + t + "}" == "{\"" + k + "\":" + t + "}"
  {
  }

  /** The text of a two-member object, given the members' texts. */
  lemma ObjText2Of(k1: string, v1: Json, t1: string, k2: string, v2: Json, t2: string)
    requires Text(v1) == t1 && Text(v2) == t2
    ensures Text(Obj([(k1, v1), (k2, v2)])) == "{\"" + k1 + "\":" + t1 + ",\"" + k2 + "\":" + t2 + "}"
  {
    ObjText2(k1, v1, k2, v2);
    Regroup2(k1, t1, k2, t2);
  }

  lemma Regroup2(k1: string, t1: string, k2: string, t2: string)
    ensures "{" + ("\"" + k1 + "\"") + ":" + t1 + "," + ("\"" + k2 + "\"") + ":" + t2 + "}"
         == "{\"" + k1 + "\":" + t1 + ",\"" + k2 + "\":" + t2 + "}"
  {
  }
  /** The text of a one-member object whose value is a two-member object. */
  lemma NestedText2Of(k: string, k1: string, v1: Json, t1: string, k2: string, v2: Json, t2: string)
    requires Text(v1) == t1 && Text(v2) == t2
    ensures Text(Obj([(k, Obj([(k1, v1), (k2, v2)]))]))
              == "{\"" + k + "\":{\"" + k1 + "\":" + t1 + ",\"" + k2 + "\":" + t2 + "}}"
  {
    var inner := "{\"" + k1 + "\":" + t1 + ",\"" + k2 + "\":" + t2 + "}";
    ObjText2Of(k1, v1, t1, k2, v2, t2);
    ObjText1Of(k, Obj([(k1, v1), (k2, v2)]), inner);
    Regroup3(k, k1, t1, k2, t2);
  }

  lemma Regroup3(k: string, k1: string, t1: string, k2: string, t2: string)
    ensures "{\"" + k + "\":" + ("{\"" + k1 + "\":" + t1 + ",\"" + k2 + "\":" + t2 + "}") + "}"
         == "{\"" + k + "\":{\"" + k1 + "\":" + t1 + ",\"" + k2 + "\":" + t2 + "}}"
  {
  }

  /** The text of a one-member object whose value is a one-member object. */
  lemma NestedText1Of(k: string, k1: string, v1: Json, t1: string)
    requires Text(v1) == t1
    ensures Text(Obj([(k, Obj([(k1, v1)]))])) == "{\"" + k + "\":{\"" + k1 + "\":" + t1 + "}}"
  {
    ObjText1Of(k1, v1, t1);
    ObjText1Of(k, Obj([(k1, v1)]), "{\"" + k1 + "\":" + t1 + "}");
    Regroup4(k, k1, t1);
  }

  lemma Regroup4(k: string, k1: string, t1: string)
    ensures "{\"" + k + "\":" + ("{\"" + k1 + "\":" + t1 + "}") + "}" == "{\"" + k + "\":{\"" + k1 + "\":" + t1 + "}}"
  {
  }
}
