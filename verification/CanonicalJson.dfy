/**
 The canonical JSON text that signatures are computed over.

 `Canon` is what the program prints, character for character. A parser recovers the value
 from it, which makes the text injective: two payloads sign the same bytes only if they are
 the same payload, up to the order of object keys and to the coercion of fractional numbers.
 */
module CanonicalJson {
  import opened Wrappers
  import opened SortedKeys

  /** JSON numbers as the parser leaves them: an integer in 64-bit range, or a finite float. */
  datatype Number = Whole(i: int) | Float(r: real)

  datatype Json =
    | Null
    | Bool(b: bool)
    | Num(n: Number)
    | Str(s: string)
    | Arr(items: seq<Json>)
    | Obj(fields: map<string, Json>)

  // ── Printing ──────────────────────────────────────────────────────────────

  function DigitChar(d: nat): char
    requires d < 10
  {
    ['0', '1', '2', '3', '4', '5', '6', '7', '8', '9'][d]
  }

  function Digits(n: nat): string {
    if n < 10 then [DigitChar(n)] else Digits(n / 10) + [DigitChar(n % 10)]
  }

  function Decimal(i: int): string {
    if i < 0 then "-" + Digits(-i) else Digits(i)
  }

  const TWO_63: real := 9223372036854775808.0

  /** The integer a number is printed as: lossless floats become integers, all other floats 0. */
  function WholeOf(n: Number): int {
    match n
    case Whole(i) => i
    case Float(r) => if r == r.Floor as real && -TWO_63 < r < TWO_63 then r.Floor else 0
  }

  function HexChar(d: nat): char
    requires d < 16
  {
    ['0', '1', '2', '3', '4', '5', '6', '7', '8', '9', 'a', 'b', 'c', 'd', 'e', 'f'][d]
  }

  /** String escapes of section 7 of RFC 8259: short forms where they exist, \u00xx for other controls. */
  function Escape(c: char): string {
    if c == '"' then "\\\""
    else if c == '\\' then "\\\\"
    else if c as int == 8 then "\\b"
    else if c as int == 9 then "\\t"
    else if c as int == 10 then "\\n"
    else if c as int == 12 then "\\f"
    else if c as int == 13 then "\\r"
    else if c as int < 32 then "\\u00" + [HexChar(c as int / 16), HexChar(c as int % 16)]
    else [c]
  }

  function Escapes(s: string): string {
    if s == "" then "" else Escape(s[0]) + Escapes(s[1..])
  }

  function Quote(s: string): string {
    "\"" + Escapes(s) + "\""
  }

  function Canon(v: Json): string
    decreases v
  {
    match v
    case Null => "null"
    case Bool(b) => if b then "true" else "false"
    case Num(n) => Decimal(WholeOf(n))
    case Str(s) => Quote(s)
    case Arr(_) => "[" + ItemsFrom(v, 0) + "]"
    case Obj(fields) => "{" + FieldsFrom(v, Sorted(fields.Keys), 0) + "}"
  }

  /** Items `i` and up, each but the very first behind a comma. */
  function ItemsFrom(v: Json, i: nat): string
    requires v.Arr? && i <= |v.items|
    decreases v, |v.items| - i
  {
    if i == |v.items| then ""
    else (if i > 0 then "," else "") + Canon(v.items[i]) + ItemsFrom(v, i + 1)
  }

  function FieldsFrom(v: Json, keys: seq<string>, i: nat): string
    requires v.Obj? && i <= |keys| && forall k :: k in keys ==> k in v.fields
    decreases v, |keys| - i
  {
    if i == |keys| then ""
    else (if i > 0 then "," else "") + Quote(keys[i]) + ":" + Canon(v.fields[keys[i]]) + FieldsFrom(v, keys, i + 1)
  }

  /** The growing output string. */
  class Out {
    var text: string

    constructor ()
      ensures text == ""
    {
      text := "";
    }

    method Push(s: string)
      modifies this
      ensures text == old(text) + s
    {
      text := text + s;
    }
  }

  method WriteCanonical(v: Json, out: Out)
    modifies out
    ensures out.text == old(out.text) + Canon(v)
    decreases v, 1
  {
    match v
    case Null => out.Push("null");
    case Bool(b) => out.Push(if b then "true" else "false");
    case Num(n) => out.Push(Decimal(WholeOf(n)));
    case Str(s) => out.Push(Quote(s));
    case Arr(_) => WriteArray(v, out);
    case Obj(_) => WriteObject(v, out);
  }

  lemma Regroup(done: string, piece: string, todo: string)
    ensures done + (piece + todo) == (done + piece) + todo
  {
  }

  ghost function Item(v: Json, i: nat): string
    requires v.Arr? && i < |v.items|
  {
    (if i > 0 then "," else "") + Canon(v.items[i])
  }

  lemma ArrayText(v: Json)
    requires v.Arr?
    ensures Canon(v) == "[" + ItemsFrom(v, 0) + "]" && ItemsFrom(v, |v.items|) == ""
    ensures forall i :: 0 <= i < |v.items| ==> ItemsFrom(v, i) == Item(v, i) + ItemsFrom(v, i + 1)
  {
  }

  lemma Wrapped(before: string, opening: string, inner: string, closing: string)
    ensures ((before + opening) + inner) + closing == before + (opening + inner + closing)
  {
  }

  lemma NothingMore(text: string)
    ensures text + "" == text
  {
  }

  method WriteItem(v: Json, i: nat, out: Out)
    requires v.Arr? && i < |v.items|
    modifies out
    ensures out.text == old(out.text) + Item(v, i)
    decreases v, 0, 0
  {
    ghost var start, prefix := out.text, if i > 0 then "," else "";
    if i > 0 {
      out.Push(",");
    } else {
      NothingMore(start);
    }
    WriteCanonical(v.items[i], out);
    Regroup(start, prefix, Canon(v.items[i]));
  }

  method WriteArray(v: Json, out: Out)
    requires v.Arr?
    modifies out
    ensures out.text == old(out.text) + Canon(v)
    decreases v, 0, 1
  {
    ArrayText(v);
    hide Canon, ItemsFrom, Item;
    out.Push("[");
    ghost var start := out.text;
    for i := 0 to |v.items|
      invariant out.text + ItemsFrom(v, i) == start + ItemsFrom(v, 0)
    {
      ghost var done := out.text;
      WriteItem(v, i, out);
      Regroup(done, Item(v, i), ItemsFrom(v, i + 1));
    }
    NothingMore(out.text);
    out.Push("]");
    Wrapped(old(out.text), "[", ItemsFrom(v, 0), "]");
  }

  lemma ObjectText(v: Json, keys: seq<string>)
    requires v.Obj? && keys == Sorted(v.fields.Keys)
    ensures Canon(v) == "{" + FieldsFrom(v, keys, 0) + "}" && FieldsFrom(v, keys, |keys|) == ""
  {
  }

  method WriteObject(v: Json, out: Out)
    requires v.Obj?
    modifies out
    ensures out.text == old(out.text) + Canon(v)
    decreases v, 0, 1
  {
    var keys := Sorted(v.fields.Keys);
    ObjectText(v, keys);
    hide Canon, FieldsFrom, Field;
    out.Push("{");
    ghost var start := out.text;
    for i := 0 to |keys|
      invariant out.text + FieldsFrom(v, keys, i) == start + FieldsFrom(v, keys, 0)
    {
      ghost var done := out.text;
      WriteField(v, keys[i], i > 0, out);
      FieldPiece(v, keys, i);
      Regroup(done, Field(v, keys[i], i > 0), FieldsFrom(v, keys, i + 1));
    }
    NothingMore(out.text);
    out.Push("}");
    Wrapped(old(out.text), "{", FieldsFrom(v, keys, 0), "}");
  }

  ghost function Field(v: Json, key: string, comma: bool): string
    requires v.Obj? && key in v.fields
  {
    (if comma then "," else "") + (Quote(key) + ":" + Canon(v.fields[key]))
  }

  lemma FieldPiece(v: Json, keys: seq<string>, i: nat)
    requires v.Obj? && i < |keys| && forall k :: k in keys ==> k in v.fields
    ensures FieldsFrom(v, keys, i) == Field(v, keys[i], i > 0) + FieldsFrom(v, keys, i + 1)
  {
    var comma, key, value := if i > 0 then "," else "", Quote(keys[i]), Canon(v.fields[keys[i]]);
    assert FieldsFrom(v, keys, i) == comma + key + ":" + value + FieldsFrom(v, keys, i + 1);
    hide Canon, Quote, FieldsFrom;
    Regroup(comma, key, ":");
    Regroup(comma, key + ":", value);
  }

  method WriteField(v: Json, key: string, comma: bool, out: Out)
    requires v.Obj? && key in v.fields
    modifies out
    ensures out.text == old(out.text) + Field(v, key, comma)
    decreases v, 0, 0
  {
    ghost var start := out.text;
    if comma {
      out.Push(",");
    }
    ghost var prefix := if comma then "," else "";
    assert out.text == start + prefix;
    out.Push(Quote(key));
    out.Push(":");
    Regroup(start + prefix, Quote(key), ":");
    WriteCanonical(v.fields[key], out);
    Regroup(start + prefix, Quote(key) + ":", Canon(v.fields[key]));
    Regroup(start, prefix, Quote(key) + ":" + Canon(v.fields[key]));
  }

  method Canonicalize(v: Json) returns (text: string)
    ensures text == Canon(v)
  {
    var out := new Out();
    WriteCanonical(v, out);
    text := out.text;
  }

  // ── Which text ────────────────────────────────────────────────────────────

  /** The first `n` of the listed fields, joined with commas. */
  ghost function Joined(v: Json, keys: seq<string>, n: nat): string
    requires v.Obj? && n <= |keys| && forall k :: k in keys ==> k in v.fields
  {
    if n == 0 then ""
    else
      Joined(v, keys, n - 1) + (if n == 1 then "" else ",") + (Quote(keys[n - 1]) + ":" + Canon(v.fields[keys[n - 1]]))
  }

  lemma {:induction false} JoinedRest(v: Json, keys: seq<string>, n: nat)
    requires v.Obj? && n <= |keys| && forall k :: k in keys ==> k in v.fields
    ensures FieldsFrom(v, keys, 0) == Joined(v, keys, n) + FieldsFrom(v, keys, n)
  {
    if n == 0 {
      assert FieldsFrom(v, keys, 0) == "" + FieldsFrom(v, keys, 0);
    } else {
      JoinedRest(v, keys, n - 1);
      FieldPiece(v, keys, n - 1);
      var done, comma := Joined(v, keys, n - 1), if n == 1 then "" else ",";
      var field, rest := Quote(keys[n - 1]) + ":" + Canon(v.fields[keys[n - 1]]), FieldsFrom(v, keys, n);
      assert Field(v, keys[n - 1], n > 1) == comma + field;
      hide FieldsFrom, Canon, Quote, Field;
      Regroup(done, comma + field, rest);
      Regroup(done, comma, field);
    }
  }

  /** An object is printed field by field, in ascending order of its keys, which fixes the order. */
  lemma ObjectPrints(v: Json, keys: seq<string>)
    requires v.Obj? && Ascending(keys) && forall k :: k in keys <==> k in v.fields
    ensures Canon(v) == "{" + Joined(v, keys, |keys|) + "}"
  {
    SortedIs(v.fields.Keys, keys);
    ObjectText(v, keys);
    JoinedRest(v, keys, |keys|);
    NothingMore(Joined(v, keys, |keys|));
    hide Canon, FieldsFrom, Joined;
  }

  /** And there is always such a listing of the keys. */
  lemma KeysAscend(v: Json) returns (keys: seq<string>)
    requires v.Obj?
    ensures Ascending(keys) && (forall k :: k in keys <==> k in v.fields) && |keys| == |v.fields|
    ensures Canon(v) == "{" + Joined(v, keys, |keys|) + "}"
  {
    keys := Sorted(v.fields.Keys);
    SortedAscends(v.fields.Keys);
    SortedSize(v.fields.Keys);
    ObjectPrints(v, keys);
  }

  lemma {:induction false} JoinedLooksBack(v: Json, keys: seq<string>, more: seq<string>, n: nat)
    requires v.Obj? && n <= |keys| && forall k :: k in keys + more ==> k in v.fields
    ensures forall k :: k in keys ==> k in v.fields
    ensures Joined(v, keys + more, n) == Joined(v, keys, n)
  {
    hide Canon, Quote;
    forall k | k in keys ensures k in v.fields {
      assert k in keys + more;
    }
    if n > 0 {
      JoinedLooksBack(v, keys, more, n - 1);
    }
  }

  /** One more field. */
  lemma JoinedSnoc(v: Json, keys: seq<string>, key: string)
    requires v.Obj? && key in v.fields && forall k :: k in keys ==> k in v.fields
    ensures Joined(v, keys + [key], |keys| + 1)
         == Joined(v, keys, |keys|) + (if keys == [] then "" else ",") + (Quote(key) + ":" + Canon(v.fields[key]))
  {
    JoinedLooksBack(v, keys, [key], |keys|);
  }

  /** A key without quotes, backslashes and control characters is printed as it is. */
  lemma {:induction false} PlainQuote(s: string)
    requires forall i :: 0 <= i < |s| ==> s[i] as int >= 32 && s[i] != '"' && s[i] != '\\'
    ensures Escapes(s) == s && Quote(s) == "\"" + s + "\""
  {
    if s != "" {
      PlainQuote(s[1..]);
      assert s == [s[0]] + s[1..];
    }
  }

  /** No leading zero. */
  lemma {:induction false} NoLeadingZero(n: nat)
    ensures |Digits(n)| > 1 ==> Digits(n)[0] != '0'
    ensures Digits(n)[0] == '0' <==> n == 0
  {
    if n >= 10 {
      NoLeadingZero(n / 10);
      assert Digits(n)[0] == Digits(n / 10)[0];
    }
  }

  // ── Reading it back ───────────────────────────────────────────────────────

  predicate IsDigit(c: char) {
    '0' <= c <= '9'
  }

  function DigitValue(c: char): nat
    requires IsDigit(c)
  {
    c as int - '0' as int
  }

  function ReadDigits(s: string, acc: nat): (r: (nat, string))
    ensures |r.1| <= |s|
  {
    if s != "" && IsDigit(s[0]) then ReadDigits(s[1..], 10 * acc + DigitValue(s[0])) else (acc, s)
  }

  function HexValue(c: char): Option<nat> {
    if '0' <= c <= '9' then Some(c as int - '0' as int)
    else if 'a' <= c <= 'f' then Some(c as int - 'a' as int + 10)
    else None
  }

  /** One character after a backslash, and what follows it. */
  function ReadEscape(s: string): (r: Option<(char, string)>)
    ensures r.Some? ==> |r.value.1| < |s|
  {
    if s == "" then None
    else if s[0] in "\"\\" then Some((s[0], s[1..]))
    else if s[0] == 'b' then Some((8 as char, s[1..]))
    else if s[0] == 't' then Some((9 as char, s[1..]))
    else if s[0] == 'n' then Some((10 as char, s[1..]))
    else if s[0] == 'f' then Some((12 as char, s[1..]))
    else if s[0] == 'r' then Some((13 as char, s[1..]))
    else if |s| >= 5 && s[..3] == "u00" && HexValue(s[3]).Some? && HexValue(s[4]).Some? then
      Some(((16 * HexValue(s[3]).value + HexValue(s[4]).value) as char, s[5..]))
    else None
  }

  /** The rest of a string whose opening quote has been read. */
  function ReadString(s: string): (r: Option<(string, string)>)
    ensures r.Some? ==> |r.value.1| < |s|
    decreases |s|
  {
    if s == "" then None
    else if s[0] == '"' then Some(("", s[1..]))
    else if s[0] == '\\' then
      match ReadEscape(s[1..])
      case None => None
      case Some((c, rest)) =>
        match ReadString(rest)
        case None => None
        case Some((tail, end)) => Some(([c] + tail, end))
    else
      match ReadString(s[1..])
      case None => None
      case Some((tail, end)) => Some(([s[0]] + tail, end))
  }

  function Parse(s: string): (r: Option<(Json, string)>)
    ensures r.Some? ==> |r.value.1| < |s|
    decreases |s|, 0
  {
    if s == "" then None
    else if s[0] == 'n' && |s| >= 4 && s[..4] == "null" then Some((Null, s[4..]))
    else if s[0] == 't' && |s| >= 4 && s[..4] == "true" then Some((Bool(true), s[4..]))
    else if s[0] == 'f' && |s| >= 5 && s[..5] == "false" then Some((Bool(false), s[5..]))
    else if s[0] == '"' then
      match ReadString(s[1..])
      case None => None
      case Some((str, rest)) => Some((Str(str), rest))
    else if IsDigit(s[0]) then
      var (n, rest) := ReadDigits(s[1..], DigitValue(s[0]));
      Some((Num(Whole(n)), rest))
    else if |s| >= 2 && s[0] == '-' && IsDigit(s[1]) then
      var read := ReadDigits(s[2..], DigitValue(s[1]));
      Some((Num(Whole(0 - read.0)), read.1))
    else if s[0] == '[' then
      if |s| >= 2 && s[1] == ']' then Some((Arr([]), s[2..]))
      else
        match ParseItems(s[1..])
        case None => None
        case Some((items, rest)) => Some((Arr(items), rest))
    else if s[0] == '{' then
      if |s| >= 2 && s[1] == '}' then Some((Obj(map[]), s[2..]))
      else
        match ParseFields(s[1..])
        case None => None
        case Some((fields, rest)) => Some((Obj(fields), rest))
    else None
  }

  function ParseItems(s: string): (r: Option<(seq<Json>, string)>)
    ensures r.Some? ==> |r.value.1| < |s|
    decreases |s|, 1
  {
    match Parse(s)
    case None => None
    case Some((v, rest)) =>
      if rest != "" && rest[0] == ']' then Some(([v], rest[1..]))
      else if rest != "" && rest[0] == ',' then
        match ParseItems(rest[1..])
        case None => None
        case Some((items, end)) => Some(([v] + items, end))
      else None
  }

  function ParseFields(s: string): (r: Option<(map<string, Json>, string)>)
    ensures r.Some? ==> |r.value.1| < |s|
    decreases |s|, 1
  {
    if s == "" || s[0] != '"' then None
    else
      match ReadString(s[1..])
      case None => None
      case Some((key, afterKey)) =>
        if afterKey == "" || afterKey[0] != ':' then None
        else
          match Parse(afterKey[1..])
          case None => None
          case Some((v, rest)) =>
            if rest != "" && rest[0] == '}' then Some((map[key := v], rest[1..]))
            else if rest != "" && rest[0] == ',' then
              match ParseFields(rest[1..])
              case None => None
              case Some((fields, end)) => Some((map[key := v] + fields, end))
            else None
  }

  /** The value with every number replaced by the integer it is printed as. */
  function Coerced(v: Json): Json
    decreases v
  {
    match v
    case Num(n) => Num(Whole(WholeOf(n)))
    case Arr(items) => Arr(seq(|items|, i requires 0 <= i < |items| => Coerced(items[i])))
    case Obj(fields) => Obj(map k | k in fields :: Coerced(fields[k]))
    case _ => v
  }

  /** What can follow a value: the end, or a closing or separating character. */
  predicate Delimits(rest: string) {
    rest == "" || rest[0] in ",]}"
  }

  lemma ReadDigit(d: nat, rest: string, acc: nat)
    requires d < 10
    ensures ReadDigits([DigitChar(d)] + rest, acc) == ReadDigits(rest, 10 * acc + d)
  {
    assert ([DigitChar(d)] + rest)[1..] == rest;
  }

  lemma {:induction false} DigitsReadBack(n: nat, rest: string)
    ensures |Digits(n)| >= 1 && IsDigit(Digits(n)[0])
    ensures ReadDigits(Digits(n) + rest, 0) == ReadDigits(rest, n)
  {
    hide ReadDigits;
    ReadDigit(n % 10, rest, n / 10);
    if n >= 10 {
      var last := [DigitChar(n % 10)];
      DigitsReadBack(n / 10, last + rest);
      assert Digits(n) + rest == Digits(n / 10) + (last + rest);
    }
  }

  lemma NumeralReadsBack(n: nat, rest: string)
    requires Delimits(rest)
    ensures Digits(n) != "" && IsDigit(Digits(n)[0])
    ensures ReadDigits((Digits(n) + rest)[1..], DigitValue(Digits(n)[0])) == (n, rest)
  {
    DigitsReadBack(n, rest);
    var text := Digits(n) + rest;
    assert ReadDigits(text, 0) == ReadDigits(text[1..], DigitValue(text[0]));
    assert ReadDigits(rest, n) == (n, rest);
  }

  lemma ParseNatural(s: string)
    requires s != "" && IsDigit(s[0])
    ensures var (n, end) := ReadDigits(s[1..], DigitValue(s[0])); Parse(s) == Some((Num(Whole(n)), end))
  {
    hide ReadDigits, ReadString, ParseItems, ParseFields;
  }

  lemma ParseNegative(s: string)
    requires |s| >= 2 && s[0] == '-' && IsDigit(s[1])
    ensures var (n, end) := ReadDigits(s[2..], DigitValue(s[1])); Parse(s) == Some((Num(Whole(0 - n)), end))
  {
    hide ReadDigits, ReadString, ParseItems, ParseFields;
  }

  lemma DecimalReadsBack(i: int, rest: string)
    requires Delimits(rest)
    ensures Parse(Decimal(i) + rest) == Some((Num(Whole(i)), rest))
  {
    var n: nat := if i < 0 then -i else i;
    NumeralReadsBack(n, rest);
    hide Digits, ReadDigits, Parse;
    if i < 0 {
      MinusReadsBack(n, rest);
    } else {
      ParseNatural(Digits(n) + rest);
    }
  }

  lemma MinusReadsBack(n: nat, rest: string)
    requires Digits(n) != "" && IsDigit(Digits(n)[0])
    requires ReadDigits((Digits(n) + rest)[1..], DigitValue(Digits(n)[0])) == (n, rest)
    ensures Parse("-" + Digits(n) + rest) == Some((Num(Whole(0 - n)), rest))
  {
    hide Digits, ReadDigits, Parse;
    var s, text := "-" + Digits(n) + rest, Digits(n) + rest;
    assert s[2..] == text[1..] && s[1] == Digits(n)[0];
    ParseNegative(s);
  }

  lemma EscapeReadsBack(c: char, rest: string)
    ensures Escape(c) != [c] ==>
              |Escape(c)| >= 2 && Escape(c)[0] == '\\' && ReadEscape(Escape(c)[1..] + rest) == Some((c, rest))
    ensures Escape(c) == [c] ==> c != '"' && c != '\\'
  {
    if c as int < 32 {
      var e := Escape(c)[1..] + rest;
      if |Escape(c)| == 6 {
        assert e[..3] == "u00" && e[3] == HexChar(c as int / 16) && e[4] == HexChar(c as int % 16);
        assert e[5..] == rest;
      } else {
        assert e[1..] == rest;
      }
    } else if c == '"' || c == '\\' {
      assert (Escape(c)[1..] + rest)[1..] == rest;
    }
  }

  lemma ReadRaw(c: char, tail: string, r: (string, string))
    requires c != '"' && c != '\\' && ReadString(tail) == Some(r)
    ensures ReadString([c] + tail) == Some(([c] + r.0, r.1))
  {
    assert ([c] + tail)[1..] == tail;
  }

  lemma ReadEscaped(c: char, tail: string, r: (string, string))
    requires Escape(c) != [c] && ReadString(tail) == Some(r)
    ensures ReadString(Escape(c) + tail) == Some(([c] + r.0, r.1))
  {
    EscapeReadsBack(c, tail);
    var text := Escape(c) + tail;
    assert text[0] == '\\' && text[1..] == Escape(c)[1..] + tail;
    hide Escape, ReadEscape;
  }

  lemma ClosingQuoteReads(rest: string)
    ensures Escapes("") + "\"" + rest == "\"" + rest && ReadString("\"" + rest) == Some(("", rest))
  {
    assert ("\"" + rest)[1..] == rest;
  }

  lemma EscapesNext(s: string, rest: string)
    requires s != ""
    ensures Escapes(s) + "\"" + rest == Escape(s[0]) + (Escapes(s[1..]) + "\"" + rest)
  {
    hide Escape;
    assert Escapes(s) == Escape(s[0]) + Escapes(s[1..]);
  }

  lemma {:induction false} StringReadsBack(s: string, rest: string)
    ensures ReadString(Escapes(s) + "\"" + rest) == Some((s, rest))
  {
    hide Escapes, Escape, ReadString;
    if s == "" {
      ClosingQuoteReads(rest);
    } else {
      var c, tail := s[0], Escapes(s[1..]) + "\"" + rest;
      StringReadsBack(s[1..], rest);
      EscapesNext(s, rest);
      assert s == [c] + s[1..];
      EscapeReadsBack(c, tail);
      if Escape(c) == [c] {
        ReadRaw(c, tail, (s[1..], rest));
      } else {
        ReadEscaped(c, tail, (s[1..], rest));
      }
    }
  }

  /** Text without control characters that reads as this one character inside quotes. */
  ghost predicate Spells(e: string, c: char) {
    (forall i :: 0 <= i < |e| ==> e[i] as int >= 32) && ReadString(e + "\"") == Some(([c], ""))
  }

  lemma EscapeSpells(c: char)
    ensures Spells(Escape(c), c)
  {
    hide ReadString, Escape;
    StringReadsBack([c], "");
    assert Escapes([c]) == Escape(c);
    assert Escapes([c]) + "\"" + "" == Escape(c) + "\"";
    EscapePrints(c);
  }

  lemma EscapePrints(c: char)
    ensures forall i :: 0 <= i < |Escape(c)| ==> Escape(c)[i] as int >= 32
  {
    assert forall d: nat :: d < 16 ==> HexChar(d) as int >= 32;
  }

  /** What a spelling starts with: the character itself, or a backslash and an escape of it. */
  lemma SpellingStarts(e: string, c: char)
    requires Spells(e, c)
    ensures e != ""
    ensures e[0] != '\\' ==> e == [c] && c != '"' && c as int >= 32
    ensures e[0] == '\\' ==> ReadEscape(e[1..] + "\"") == Some((c, "\""))
  {
    var s := e + "\"";
    assert e == "" ==> s == "\"";
    assert s[0] == e[0] && s[1..] == e[1..] + "\"";
    if e[0] == '\\' {
      var (d, rest) := ReadEscape(s[1..]).value;
      var (tail, end) := ReadString(rest).value;
      assert |[d] + tail| == 1 && ([d] + tail)[0] == d;
      NothingBeforeQuote(rest);
    } else {
      var (tail, end) := ReadString(s[1..]).value;
      NothingBeforeQuote(s[1..]);
      assert e == [e[0]] + e[1..];
      assert c == e[0] && e[0] as int >= 32;
    }
  }

  /** An empty string up to the closing quote leaves just the quote. */
  lemma NothingBeforeQuote(s: string)
    requires ReadString(s) == Some(("", ""))
    ensures s == "\""
  {
  }

  /** The escape the program prints is the shortest spelling, and no other is as short. */
  lemma EscapeIsShortest(c: char, e: string)
    requires Spells(e, c) && |e| <= |Escape(c)|
    ensures e == Escape(c)
  {
    SpellingStarts(e, c);
    if e[0] == '\\' {
      EscapedSpelling(e, c);
    }
    hide ReadString, ReadEscape;
  }

  lemma EscapedSpelling(e: string, c: char)
    requires e != "" && e[0] == '\\' && ReadEscape(e[1..] + "\"") == Some((c, "\"")) && |e| <= |Escape(c)|
    ensures e == Escape(c)
  {
    var s := e[1..] + "\"";
    if s[0] == 'u' {
      HexSpelling(s, c);
      assert e == ['\\'] + s[..5];
    } else {
      ShortSpelling(s, c);
      assert e == ['\\', s[0]];
    }
    hide Escape, ReadEscape;
  }

  lemma ShortSpelling(s: string, c: char)
    requires s != "" && s[0] != 'u' && ReadEscape(s) == Some((c, "\""))
    ensures |s| == 2 && (c as int < 32 || c in "\"\\") && Escape(c) == ['\\', s[0]]
  {
    assert s[1..] == "\"";
  }

  lemma HexSpelling(s: string, c: char)
    requires s != "" && s[0] == 'u' && ReadEscape(s) == Some((c, "\"")) && |s| <= |Escape(c)|
    ensures |s| == 6 && Escape(c) == ['\\'] + s[..5]
  {
    assert s[5..] == "\"";
    HexDigitIs(s[3]);
    HexDigitIs(s[4]);
    assert s[..5] == "u00" + [s[3], s[4]];
    assert Escape(c) == "\\u00" + [HexChar(c as int / 16), HexChar(c as int % 16)];
    hide ReadEscape, Escape;
  }

  lemma HexDigitIs(x: char)
    ensures HexValue(x).Some? ==> HexValue(x).value < 16 && HexChar(HexValue(x).value) == x
  {
  }

  // ── The text determines the value ─────────────────────────────────────────

  lemma CanonStarts(v: Json)
    ensures Canon(v) != "" && Canon(v)[0] !in ",]}"
  {
    if v.Num? {
      var i := WholeOf(v.n);
      DigitsReadBack(if i < 0 then -i else i, "");
    }
  }

  lemma LiteralsParseBack(b: bool, rest: string)
    ensures Parse("null" + rest) == Some((Null, rest))
    ensures Parse((if b then "true" else "false") + rest) == Some((Bool(b), rest))
  {
    assert ("null" + rest)[..4] == "null" && ("null" + rest)[4..] == rest;
    assert ("true" + rest)[..4] == "true" && ("true" + rest)[4..] == rest;
    assert ("false" + rest)[..5] == "false" && ("false" + rest)[5..] == rest;
  }

  lemma ParseQuoted(s: string, r: (string, string))
    requires s != "" && s[0] == '"' && ReadString(s[1..]) == Some(r)
    ensures Parse(s) == Some((Str(r.0), r.1))
  {
    hide ReadDigits, ReadString, ParseItems, ParseFields;
  }

  lemma QuotedParsesBack(s: string, rest: string)
    ensures Parse(Quote(s) + rest) == Some((Str(s), rest))
  {
    hide Escapes, ReadString, Parse;
    StringReadsBack(s, rest);
    var text := Quote(s) + rest;
    assert text[0] == '"' && text[1..] == Escapes(s) + "\"" + rest;
    ParseQuoted(text, (s, rest));
  }

  lemma {:induction false} ParsesBack(v: Json, rest: string)
    requires Delimits(rest)
    ensures Parse(Canon(v) + rest) == Some((Coerced(v), rest))
    decreases v, 2, 0
  {
    hide Parse, Quote, Decimal;
    match v
    case Null => LiteralsParseBack(true, rest);
    case Bool(b) => LiteralsParseBack(b, rest);
    case Num(n) => DecimalReadsBack(WholeOf(n), rest);
    case Str(s) => QuotedParsesBack(s, rest);
    case Arr(_) => ArrayParsesBack(v, rest);
    case Obj(_) => ObjectParsesBack(v, rest);
  }

  // How the parser composes, on any text.

  lemma ParseItemsLast(s: string, v: Json, rest: string)
    requires Parse(s) == Some((v, "]" + rest))
    ensures ParseItems(s) == Some(([v], rest))
  {
    assert ("]" + rest)[1..] == rest;
  }

  lemma ParseItemsMore(s: string, v: Json, tail: string, items: seq<Json>, end: string)
    requires Parse(s) == Some((v, "," + tail)) && ParseItems(tail) == Some((items, end))
    ensures ParseItems(s) == Some(([v] + items, end))
  {
    assert ("," + tail)[1..] == tail;
  }

  lemma ParseField(s: string, key: string, afterKey: string)
    requires s == Quote(key) + ":" + afterKey
    ensures s != "" && s[0] == '"' && ReadString(s[1..]) == Some((key, ":" + afterKey))
    ensures (":" + afterKey)[1..] == afterKey
  {
    hide Escapes, ReadString;
    StringReadsBack(key, ":" + afterKey);
    assert s[1..] == Escapes(key) + "\"" + (":" + afterKey);
  }

  lemma ParseFieldsLast(s: string, key: string, afterKey: string, v: Json, rest: string)
    requires s == Quote(key) + ":" + afterKey && Parse(afterKey) == Some((v, "}" + rest))
    ensures ParseFields(s) == Some((map[key := v], rest))
  {
    ParseField(s, key, afterKey);
    assert ("}" + rest)[1..] == rest;
    hide ReadString, Parse, Quote;
  }

  lemma ParseFieldsMore(s: string, key: string, afterKey: string, v: Json, tail: string,
                        fields: map<string, Json>, end: string)
    requires s == Quote(key) + ":" + afterKey && Parse(afterKey) == Some((v, "," + tail))
    requires ParseFields(tail) == Some((fields, end))
    ensures ParseFields(s) == Some((map[key := v] + fields, end))
  {
    ParseField(s, key, afterKey);
    assert ("," + tail)[1..] == tail;
    hide ReadString, Parse, Quote;
  }

  lemma ParseBracketed(body: string, items: seq<Json>, rest: string)
    requires ParseItems(body) == Some((items, rest)) && body != "" && body[0] != ']'
    ensures Parse("[" + body) == Some((Arr(items), rest))
  {
    assert ("[" + body)[1..] == body;
    hide ParseItems;
  }

  lemma ParseBraced(body: string, fields: map<string, Json>, rest: string)
    requires ParseFields(body) == Some((fields, rest)) && body != "" && body[0] == '"'
    ensures Parse("{" + body) == Some((Obj(fields), rest))
  {
    assert ("{" + body)[1..] == body;
    hide ParseFields;
  }

  lemma Regroup4(a: string, b: string, c: string, d: string)
    ensures a + b + c + d == a + (b + c + d)
    ensures (a + b) + c + d == a + (b + c + d)
  {
  }

  lemma {:induction false} ArrayParsesBack(v: Json, rest: string)
    requires v.Arr? && Delimits(rest)
    ensures Parse(Canon(v) + rest) == Some((Coerced(v), rest))
    decreases v, 1, 0
  {
    var text := Canon(v) + rest;
    var body := ItemsFrom(v, 0) + "]" + rest;
    assert text == "[" + body;
    if v.items == [] {
      assert text[1] == ']' && text[2..] == rest;
      assert Coerced(v) == Arr([]);
    } else {
      CanonStarts(v.items[0]);
      ItemsParseBack(v, 0, rest);
      assert ItemsFrom(v, 0) == ItemsText(v, 0);
      assert body[0] == Canon(v.items[0])[0];
      assert Coerced(v).items[0..] == Coerced(v).items;
      hide Canon, ItemsFrom, ItemsText, Parse, ParseItems;
      ParseBracketed(body, Coerced(v).items, rest);
    }
  }

  /** The text of items `i` and up, without the comma before the first of them. */
  ghost function ItemsText(v: Json, i: nat): string
    requires v.Arr? && i < |v.items|
  {
    Canon(v.items[i]) + ItemsFrom(v, i + 1)
  }

  lemma ItemsFromNext(v: Json, i: nat)
    requires v.Arr? && 1 <= i <= |v.items|
    ensures ItemsFrom(v, i) == if i == |v.items| then "" else "," + ItemsText(v, i)
  {
  }

  lemma CoercedTail(v: Json, i: nat)
    requires v.Arr? && i < |v.items|
    ensures Coerced(v).Arr? && |Coerced(v).items| == |v.items|
    ensures Coerced(v).items[i..] == [Coerced(v.items[i])] + Coerced(v).items[i + 1..]
    ensures i + 1 == |v.items| ==> Coerced(v).items[i..] == [Coerced(v.items[i])]
  {
    assert Coerced(v).items[i] == Coerced(v.items[i]);
  }

  lemma {:induction false} ItemsParseBack(v: Json, i: nat, rest: string)
    requires v.Arr? && i < |v.items| && Delimits(rest)
    ensures ParseItems(ItemsText(v, i) + "]" + rest) == Some((Coerced(v).items[i..], rest))
    decreases v, 0, |v.items| - i
  {
    var after := ItemsFrom(v, i + 1) + "]" + rest;
    var text := ItemsText(v, i) + "]" + rest;
    Regroup4(Canon(v.items[i]), ItemsFrom(v, i + 1), "]", rest);
    ItemsFromNext(v, i + 1);
    CoercedTail(v, i);
    hide Canon, ItemsFrom, Coerced, Parse, ParseItems;
    if i + 1 == |v.items| {
      assert after == "]" + rest;
      ParsesBack(v.items[i], after);
      ParseItemsLast(text, Coerced(v.items[i]), rest);
    } else {
      var tail := ItemsText(v, i + 1) + "]" + rest;
      Regroup4(",", ItemsText(v, i + 1), "]", rest);
      assert after == "," + tail;
      ParsesBack(v.items[i], after);
      ItemsParseBack(v, i + 1, rest);
      ParseItemsMore(text, Coerced(v.items[i]), tail, Coerced(v).items[i + 1..], rest);
    }
  }

  lemma {:induction false} ObjectParsesBack(v: Json, rest: string)
    requires v.Obj? && Delimits(rest)
    ensures Parse(Canon(v) + rest) == Some((Coerced(v), rest))
    decreases v, 1, 0
  {
    var keys := Sorted(v.fields.Keys);
    var text := Canon(v) + rest;
    var body := FieldsFrom(v, keys, 0) + "}" + rest;
    assert text == "{" + body;
    if keys == [] {
      assert forall k :: k in v.fields.Keys ==> k in keys;
      assert Coerced(v).fields == map[];
      assert text[1] == '}' && text[2..] == rest;
    } else {
      hide Canon, FieldsFrom, FieldsText, FieldsOf, Coerced, Parse, ParseFields, Quote;
      FieldsParseBack(v, keys, 0, rest);
      FirstField(v, keys);
      AllFields(v);
      ParseBraced(body, FieldsOf(v, keys, 0), rest);
    }
  }

  lemma FirstField(v: Json, keys: seq<string>)
    requires v.Obj? && keys != [] && forall k :: k in keys ==> k in v.fields
    ensures FieldsFrom(v, keys, 0) == FieldsText(v, keys, 0)
    ensures FieldsText(v, keys, 0) != "" && FieldsText(v, keys, 0)[0] == '"'
  {
  }

  lemma AllFields(v: Json)
    requires v.Obj?
    ensures Coerced(v) == Obj(FieldsOf(v, Sorted(v.fields.Keys), 0))
  {
    var keys := Sorted(v.fields.Keys);
    assert keys[0..] == keys;
  }

  ghost function FieldsText(v: Json, keys: seq<string>, i: nat): string
    requires v.Obj? && i < |keys| && forall k :: k in keys ==> k in v.fields
  {
    Quote(keys[i]) + ":" + Canon(v.fields[keys[i]]) + FieldsFrom(v, keys, i + 1)
  }

  /** The fields of the keys from `i` on, with their coerced values. */
  ghost function FieldsOf(v: Json, keys: seq<string>, i: nat): map<string, Json>
    requires v.Obj? && i <= |keys| && forall k :: k in keys ==> k in v.fields
  {
    map k | k in keys[i..] :: Coerced(v.fields[k])
  }

  lemma FieldsFromNext(v: Json, keys: seq<string>, i: nat)
    requires v.Obj? && 1 <= i <= |keys| && forall k :: k in keys ==> k in v.fields
    ensures FieldsFrom(v, keys, i) == if i == |keys| then "" else "," + FieldsText(v, keys, i)
  {
    if i < |keys| {
      Regroup4(",", Quote(keys[i]) + ":", Canon(v.fields[keys[i]]), FieldsFrom(v, keys, i + 1));
      assert "," + Quote(keys[i]) + ":" == "," + (Quote(keys[i]) + ":");
    }
  }

  lemma {:induction false} FieldsParseBack(v: Json, keys: seq<string>, i: nat, rest: string)
    requires v.Obj? && i < |keys| && (forall k :: k in keys ==> k in v.fields) && Delimits(rest)
    requires forall a, b :: 0 <= a < b < |keys| ==> keys[a] != keys[b]
    ensures ParseFields(FieldsText(v, keys, i) + "}" + rest) == Some((FieldsOf(v, keys, i), rest))
    decreases v, 0, |keys| - i
  {
    var key, value := keys[i], v.fields[keys[i]];
    var after := FieldsFrom(v, keys, i + 1) + "}" + rest;
    var text := FieldsText(v, keys, i) + "}" + rest;
    hide Canon, FieldsFrom, Coerced, Parse, ParseFields, Quote, FieldsOf, FieldsText;
    FieldsFromNext(v, keys, i + 1);
    FieldsOfNext(v, keys, i);
    FieldTextSplit(v, keys, i, rest);
    if i + 1 == |keys| {
      assert after == "}" + rest;
      ParsesBack(value, after);
      ParseFieldsLast(text, key, Canon(value) + after, Coerced(value), rest);
      NoFieldsLeft(v, keys);
      assert map[key := Coerced(value)] + map[] == map[key := Coerced(value)];
    } else {
      var tail := FieldsText(v, keys, i + 1) + "}" + rest;
      Regroup4(",", FieldsText(v, keys, i + 1), "}", rest);
      assert after == "," + tail;
      ParsesBack(value, after);
      FieldsParseBack(v, keys, i + 1, rest);
      ParseFieldsMore(text, key, Canon(value) + after, Coerced(value), tail, FieldsOf(v, keys, i + 1), rest);
    }
  }

  lemma FieldTextSplit(v: Json, keys: seq<string>, i: nat, rest: string)
    requires v.Obj? && i < |keys| && forall k :: k in keys ==> k in v.fields
    ensures FieldsText(v, keys, i) + "}" + rest
         == Quote(keys[i]) + ":" + (Canon(v.fields[keys[i]]) + (FieldsFrom(v, keys, i + 1) + "}" + rest))
  {
    var name, value, tail := Quote(keys[i]) + ":", Canon(v.fields[keys[i]]), FieldsFrom(v, keys, i + 1);
    assert FieldsText(v, keys, i) == name + value + tail;
    hide Canon, FieldsFrom, Quote, FieldsText;
    Regroup4(name + value, tail, "}", rest);
    Regroup(name, value, tail + "}" + rest);
  }

  lemma FieldsOfNext(v: Json, keys: seq<string>, i: nat)
    requires v.Obj? && i < |keys| && forall k :: k in keys ==> k in v.fields
    requires forall a, b :: 0 <= a < b < |keys| ==> keys[a] != keys[b]
    ensures FieldsOf(v, keys, i) == map[keys[i] := Coerced(v.fields[keys[i]])] + FieldsOf(v, keys, i + 1)
  {
    assert keys[i..] == [keys[i]] + keys[i + 1..];
  }

  lemma NoFieldsLeft(v: Json, keys: seq<string>)
    requires v.Obj? && forall k :: k in keys ==> k in v.fields
    ensures FieldsOf(v, keys, |keys|) == map[]
  {
  }

  /** Coercion changes numbers only, so it does not change the text. */
  lemma {:induction false} CoercedPrintsTheSame(v: Json)
    ensures Canon(Coerced(v)) == Canon(v)
    decreases v, 1, 0
  {
    match v
    case Arr(_) => CoercedItems(v, 0);
    case Obj(fields) =>
      assert Coerced(v).fields.Keys == fields.Keys;
      CoercedFields(v, Sorted(fields.Keys), 0);
    case _ =>
  }

  lemma {:induction false} CoercedItems(v: Json, i: nat)
    requires v.Arr? && i <= |v.items|
    ensures Coerced(v).Arr? && |Coerced(v).items| == |v.items| && ItemsFrom(Coerced(v), i) == ItemsFrom(v, i)
    decreases v, 0, |v.items| - i
  {
    if i < |v.items| {
      CoercedPrintsTheSame(v.items[i]);
      CoercedItems(v, i + 1);
      assert Coerced(v).items[i] == Coerced(v.items[i]);
    }
  }

  lemma {:induction false} CoercedFields(v: Json, keys: seq<string>, i: nat)
    requires v.Obj? && i <= |keys| && forall k :: k in keys ==> k in v.fields
    ensures Coerced(v).Obj? && (forall k :: k in keys ==> k in Coerced(v).fields)
    ensures FieldsFrom(Coerced(v), keys, i) == FieldsFrom(v, keys, i)
    decreases v, 0, |keys| - i
  {
    if i < |keys| {
      CoercedPrintsTheSame(v.fields[keys[i]]);
      CoercedFields(v, keys, i + 1);
    }
  }

  /**
   Injective up to coercion: two values have the same canonical text iff they are the same JSON,
   object keys in any order, once every number is read as the integer it is printed as.
   */
  lemma CanonInjective(a: Json, b: Json)
    ensures Canon(a) == Canon(b) <==> Coerced(a) == Coerced(b)
  {
    ParsesBack(a, "");
    ParsesBack(b, "");
    CoercedPrintsTheSame(a);
    CoercedPrintsTheSame(b);
    assert Canon(a) + "" == Canon(a) && Canon(b) + "" == Canon(b);
  }
}
