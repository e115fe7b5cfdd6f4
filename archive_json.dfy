/**
 * The text form of the archive in storage. `Serialize` writes what
 * `JSON.stringify` writes for a list of saved items whose keys come in the
 * order type, content, title, id, timestamp (escaping as JSON.stringify
 * does); `Parse` reads exactly that form back, and nothing else: an object
 * with its keys in another order, with other keys or with white space is
 * not read. The round trip is proved, not assumed.
 */
module ArchiveJson {
  import opened Wrappers
  import opened Types
  import Strings

  // ---------------------------------------------------------------------
  // Writing

  /** A lower-case hexadecimal digit. */
  function HexDigit(d: nat): char
    requires d < 16
  {
    if d < 10 then ('0' as int + d) as char else ('a' as int + d - 10) as char
  }

  /** The JSON escape of one character of a string. */
  function EscapeChar(c: char): (r: string)
    ensures |r| >= 1 && r[0] != '"'
  {
    if c == '"' then "\\\""
    else if c == '\\' then "\\\\"
    else if c == '\U{8}' then "\\b"
    else if c == '\U{C}' then "\\f"
    else if c == '\n' then "\\n"
    else if c == '\r' then "\\r"
    else if c == '\t' then "\\t"
    else if c < ' ' then "\\u00" + [HexDigit(c as int / 16), HexDigit(c as int % 16)]
    else [c]
  }

  /** The escaped body of a JSON string. */
  function Escape(s: string): string {
    if |s| == 0 then "" else EscapeChar(s[0]) + Escape(s[1..])
  }

  /** A JSON string literal. */
  function Quote(s: string): string {
    "\"" + Escape(s) + "\""
  }

  /** A decimal digit. */
  function Digit(d: nat): char
    requires d < 10
  {
    ('0' as int + d) as char
  }

  /** The decimal text of a natural number. */
  function NatText(n: nat): (r: string)
    ensures |r| >= 1
  {
    if n < 10 then [Digit(n)] else NatText(n / 10) + [Digit(n % 10)]
  }

  /** The `type` value of an item. */
  function TypeName(kind: ItemType): string {
    match kind
    case TextItem => "TEXT"
    case ImageItem => "IMAGE"
  }

  /** The keys of an item object, each with the punctuation before it. */
  const TypeKey := "{\"type\":"
  const ContentKey := ",\"content\":"
  const TitleKey := ",\"title\":"
  const IdKey := ",\"id\":"
  const TimestampKey := ",\"timestamp\":"

  /** The value of an object member: a string or a number. */
  datatype Value = Str(text: string) | Num(n: nat)

  /** The JSON text of a member value. */
  function ValueJson(v: Value): string {
    match v
    case Str(text) => Quote(text)
    case Num(n) => NatText(n)
  }

  /** Object members, each key (with the punctuation before it) followed by its value, then `after`. */
  function MembersJson(members: seq<(string, Value)>, after: string): string {
    if |members| == 0 then after
    else members[0].0 + (ValueJson(members[0].1) + MembersJson(members[1..], after))
  }

  /**
   * The members of an item, in the order in which they are written: the
   * draft's own keys first, then the id and the timestamp the save spreads
   * after them.
   */
  function ItemMembers(item: SavedItem): seq<(string, Value)> {
    [(TypeKey, Str(TypeName(item.kind))), (ContentKey, Str(item.content)), (TitleKey, Str(item.title)),
     (IdKey, Str(item.id)), (TimestampKey, Num(item.timestamp))]
  }

  /** One item as a JSON object, followed by the text `after`. */
  function ItemJson(item: SavedItem, after: string): string {
    MembersJson(ItemMembers(item), "}" + after)
  }

  /** The items as the comma-separated elements of a JSON array, followed by `after`. */
  function ElementsJson(items: seq<SavedItem>, after: string): string {
    if |items| == 0 then after
    else if |items| == 1 then ItemJson(items[0], after)
    else ItemJson(items[0], "," + ElementsJson(items[1..], after))
  }

  /** Written members end with the text that follows them. */
  lemma {:induction false} MembersJsonEnds(members: seq<(string, Value)>, after: string)
    ensures Strings.EndsWith(MembersJson(members, after), after)
  {
    if |members| > 0 {
      var next := MembersJson(members[1..], after);
      MembersJsonEnds(members[1..], after);
      Strings.EndsWithConcat(ValueJson(members[0].1), next, after);
      Strings.EndsWithConcat(members[0].0, ValueJson(members[0].1) + next, after);
    } else {
      assert after[0..] == after;
    }
  }

  /** An item object ends with the text that follows it, after its closing brace. */
  lemma ItemJsonEnds(item: SavedItem, after: string)
    ensures Strings.EndsWith(ItemJson(item, after), after) && |after| < |ItemJson(item, after)|
  {
    var written := "}" + after;
    MembersJsonEnds(ItemMembers(item), written);
    var r := ItemJson(item, after);
    assert r[|r| - |after|..] == written[|written| - |after|..];
  }

  /** Written elements end with the text that follows them, after at least one more character when there are items. */
  lemma {:induction false} ElementsJsonEnds(items: seq<SavedItem>, after: string)
    ensures Strings.EndsWith(ElementsJson(items, after), after)
    ensures items != [] ==> |after| < |ElementsJson(items, after)|
  {
    if |items| == 0 {
      assert after[0..] == after;
    } else if |items| == 1 {
      ItemJsonEnds(items[0], after);
    } else {
      var tail := "," + ElementsJson(items[1..], after);
      ElementsJsonEnds(items[1..], after);
      Strings.EndsWithConcat(",", ElementsJson(items[1..], after), after);
      ItemJsonEnds(items[0], tail);
      var r := ItemJson(items[0], tail);
      assert r[|r| - |after|..] == tail[|tail| - |after|..];
    }
  }

  /** `JSON.stringify(items)`: an array text, opening with '[' and closing with ']'. */
  function Serialize(items: seq<SavedItem>): (r: string)
    ensures |r| >= 2 && r[0] == '[' && r[|r| - 1] == ']'
    ensures items == [] <==> r == "[]"
  {
    var body := ElementsJson(items, "]");
    ElementsJsonEnds(items, "]");
    "[" + body
  }

  // ---------------------------------------------------------------------
  // Reading

  /** The text after the literal `lit`, if `s` starts with it. */
  function Expect(lit: string, s: string): (r: Option<string>)
    ensures r.Some? ==> |r.value| == |s| - |lit| && r.value == s[|lit|..]
  {
    if lit <= s then Some(s[|lit|..]) else None
  }

  /** The value of a hexadecimal digit of either case. */
  function HexValue(c: char): Option<nat> {
    if '0' <= c <= '9' then Some(c as int - '0' as int)
    else if 'a' <= c <= 'f' then Some(c as int - 'a' as int + 10)
    else if 'A' <= c <= 'F' then Some(c as int - 'A' as int + 10)
    else None
  }

  /** The value of four hexadecimal digits. */
  function Hex4(t: string): (r: Option<nat>)
    requires |t| == 4
    ensures r.Some? ==> r.value < 0x10000
  {
    var a :- HexValue(t[0]);
    var b :- HexValue(t[1]);
    var c :- HexValue(t[2]);
    var d :- HexValue(t[3]);
    if a < 16 && b < 16 && c < 16 && d < 16 then Some(((a * 16 + b) * 16 + c) * 16 + d) else None
  }

  /** One character of a string literal's body and the number of input characters it took. */
  function DecodeChar(s: string): (r: Option<(char, nat)>)
    requires |s| > 0
    ensures r.Some? ==> 1 <= r.value.1 <= |s|
  {
    if s[0] == '\\' then
      if |s| < 2 then None
      else if s[1] == '"' then Some(('"', 2))
      else if s[1] == '\\' then Some(('\\', 2))
      else if s[1] == '/' then Some(('/', 2))
      else if s[1] == 'b' then Some(('\U{8}', 2))
      else if s[1] == 'f' then Some(('\U{C}', 2))
      else if s[1] == 'n' then Some(('\n', 2))
      else if s[1] == 'r' then Some(('\r', 2))
      else if s[1] == 't' then Some(('\t', 2))
      else if s[1] == 'u' && |s| >= 6 then
        match Hex4(s[2..6])
        case None => None
        case Some(v) => if v < 0xD800 || 0xE000 <= v then Some((v as char, 6)) else None
      else None
    else if s[0] < ' ' then None
    else Some((s[0], 1))
  }

  /** The body of a string literal up to its closing quote, and the text after it. */
  function StringBody(s: string): (r: Option<(string, string)>)
    ensures r.Some? ==> |r.value.1| < |s|
    decreases |s|
  {
    if |s| == 0 then None
    else if s[0] == '"' then Some(("", s[1..]))
    else
      match DecodeChar(s)
      case None => None
      case Some((c, k)) =>
        match StringBody(s[k..])
        case None => None
        case Some((body, rest)) => Some(([c] + body, rest))
  }

  /** A string literal and the text after it. */
  function ParseQuoted(s: string): (r: Option<(string, string)>)
    ensures r.Some? ==> |r.value.1| < |s|
  {
    var t :- Expect("\"", s);
    StringBody(t)
  }

  predicate IsDigit(c: char) {
    '0' <= c <= '9'
  }

  /** The longest prefix of decimal digits. */
  function DigitPrefix(s: string): (r: string)
    ensures r <= s
  {
    if |s| > 0 && IsDigit(s[0]) then [s[0]] + DigitPrefix(s[1..]) else ""
  }

  /** The value of a string of decimal digits. */
  function DigitsValue(ds: string): nat {
    if |ds| == 0 then 0
    else
      var d := ds[|ds| - 1] as int - '0' as int;
      DigitsValue(ds[..|ds| - 1]) * 10 + (if 0 <= d then d else 0)
  }

  /** A non-negative integer literal and the text after it. */
  function ParseNat(s: string): (r: Option<(nat, string)>)
    ensures r.Some? ==> |r.value.1| < |s|
  {
    var ds := DigitPrefix(s);
    if |ds| == 0 then None else Some((DigitsValue(ds), s[|ds|..]))
  }

  /** The item type named by a `type` value. */
  function ItemTypeOf(name: string): Option<ItemType> {
    if name == "TEXT" then Some(TextItem)
    else if name == "IMAGE" then Some(ImageItem)
    else None
  }

  /** The kind of value an object member holds. */
  datatype ValueKind = StrKind | NumKind

  /** A member value of the given kind and the text after it. */
  function ParseValue(kind: ValueKind, s: string): (r: Option<(Value, string)>)
    ensures r.Some? ==> |r.value.1| < |s|
  {
    match kind
    case StrKind =>
      var t :- ParseQuoted(s);
      Some((Str(t.0), t.1))
    case NumKind =>
      var t :- ParseNat(s);
      Some((Num(t.0), t.1))
  }

  /** The members named by `keys`, in that order: their values and the text after them. */
  function ParseMembers(keys: seq<(string, ValueKind)>, s: string): (r: Option<(seq<Value>, string)>)
    ensures r.Some? ==> |r.value.0| == |keys| && |r.value.1| <= |s|
  {
    if |keys| == 0 then Some(([], s))
    else
      var t :- Expect(keys[0].0, s);
      var v :- ParseValue(keys[0].1, t);
      var more :- ParseMembers(keys[1..], v.1);
      Some(([v.0] + more.0, more.1))
  }

  /** The keys of an item object and the kinds of their values. */
  const ItemKeys: seq<(string, ValueKind)> :=
    [(TypeKey, StrKind), (ContentKey, StrKind), (TitleKey, StrKind), (IdKey, StrKind), (TimestampKey, NumKind)]

  /** The item that the member values of an object describe. */
  function ItemOf(values: seq<Value>): Option<SavedItem> {
    if |values| == 5 && values[0].Str? && values[1].Str? && values[2].Str? && values[3].Str? && values[4].Num? then
      var kind :- ItemTypeOf(values[0].text);
      Some(SavedItem(values[3].text, kind, values[1].text, values[4].n, values[2].text))
    else None
  }

  /** One item object and the text after it. */
  function ParseItem(s: string): (r: Option<(SavedItem, string)>)
    ensures r.Some? ==> |r.value.1| < |s|
  {
    var members :- ParseMembers(ItemKeys, s);
    var item :- ItemOf(members.0);
    var rest :- Expect("}", members.1);
    Some((item, rest))
  }

  /** The elements of a non-empty array, through its closing bracket. */
  function ParseElements(s: string): (r: Option<seq<SavedItem>>)
    ensures r.Some? ==> |r.value| > 0
    decreases |s|
  {
    var first :- ParseItem(s);
    if first.1 == "]" then Some([first.0])
    else if |first.1| > 0 && first.1[0] == ',' then
      var more :- ParseElements(first.1[1..]);
      Some([first.0] + more)
    else None
  }

  /** `JSON.parse` of a stored archive; None where it would throw. */
  function Parse(text: string): (r: Option<seq<SavedItem>>)
    ensures r == Some([]) <==> text == "[]"
    ensures r.Some? ==> |text| >= 2 && text[0] == '['
  {
    if text == "[]" then Some([])
    else
      var t :- Expect("[", text);
      ParseElements(t)
  }

  // ---------------------------------------------------------------------
  // Round trip

  lemma ExpectLiteral(lit: string, rest: string)
    ensures Expect(lit, lit + rest) == Some(rest)
  {
    assert (lit + rest)[..|lit|] == lit;
    assert (lit + rest)[|lit|..] == rest;
  }

  lemma HexRoundTrip(d: nat)
    requires d < 16
    ensures HexValue(HexDigit(d)) == Some(d)
  {
  }

  /** Each escaped character decodes to itself, consuming exactly its escape. */
  lemma DecodeEscapedChar(c: char, rest: string)
    ensures DecodeChar(EscapeChar(c) + rest) == Some((c, |EscapeChar(c)|))
  {
    var e := EscapeChar(c);
    var s := e + rest;
    assert s[0] == e[0];
    if c < ' ' && c != '\U{8}' && c != '\U{C}' && c != '\n' && c != '\r' && c != '\t' {
      var n := c as int;
      HexRoundTrip(n / 16);
      HexRoundTrip(n % 16);
      assert s[2..6] == ['0', '0', HexDigit(n / 16), HexDigit(n % 16)];
      assert Hex4(s[2..6]) == Some(((0 * 16 + 0) * 16 + n / 16) * 16 + n % 16);
      assert ((0 * 16 + 0) * 16 + n / 16) * 16 + n % 16 == n;
    } else if |e| == 2 {
      assert s[1] == e[1];
    }
  }

  /** The body of an escaped string reads back as that string, up to the closing quote. */
  lemma {:induction false} StringBodyOfEscape(s: string, rest: string)
    ensures StringBody(Escape(s) + "\"" + rest) == Some((s, rest))
  {
    var t := Escape(s) + "\"" + rest;
    if |s| == 0 {
      assert t == "\"" + rest;
      assert t[1..] == rest;
    } else {
      var e := EscapeChar(s[0]);
      var tail := Escape(s[1..]) + "\"" + rest;
      assert t == e + tail;
      DecodeEscapedChar(s[0], tail);
      assert t[0] == e[0];
      assert t[|e|..] == tail;
      StringBodyOfEscape(s[1..], rest);
      assert [s[0]] + s[1..] == s;
    }
  }

  lemma ParseQuotedOfQuote(s: string, rest: string)
    ensures ParseQuoted(Quote(s) + rest) == Some((s, rest))
  {
    assert Quote(s) + rest == "\"" + (Escape(s) + "\"" + rest);
    ExpectLiteral("\"", Escape(s) + "\"" + rest);
    StringBodyOfEscape(s, rest);
  }

  /** Every character of `NatText(n)` is a digit. */
  lemma {:induction false} NatTextDigits(n: nat)
    ensures forall i :: 0 <= i < |NatText(n)| ==> IsDigit(NatText(n)[i])
  {
    if n >= 10 {
      NatTextDigits(n / 10);
    }
  }

  lemma {:induction false} NatTextValue(n: nat)
    ensures DigitsValue(NatText(n)) == n
  {
    if n >= 10 {
      var init := NatText(n / 10);
      assert (init + [Digit(n % 10)])[..|init|] == init;
      NatTextValue(n / 10);
    }
  }

  /** The digit prefix of a digit string followed by a non-digit is that digit string. */
  lemma {:induction false} DigitPrefixOf(ds: string, rest: string)
    requires forall i :: 0 <= i < |ds| ==> IsDigit(ds[i])
    requires |rest| > 0 && !IsDigit(rest[0])
    ensures DigitPrefix(ds + rest) == ds
  {
    if |ds| == 0 {
      assert ds + rest == rest;
    } else {
      assert (ds + rest)[1..] == ds[1..] + rest;
      DigitPrefixOf(ds[1..], rest);
      assert [ds[0]] + ds[1..] == ds;
    }
  }

  lemma ParseNatOfText(n: nat, rest: string)
    requires |rest| > 0 && !IsDigit(rest[0])
    ensures ParseNat(NatText(n) + rest) == Some((n, rest))
  {
    NatTextDigits(n);
    DigitPrefixOf(NatText(n), rest);
    NatTextValue(n);
    assert (NatText(n) + rest)[|NatText(n)|..] == rest;
  }

  /** The kind of a member value. */
  function KindOf(v: Value): ValueKind {
    match v
    case Str(_) => StrKind
    case Num(_) => NumKind
  }

  /** The keys of members and the kinds of their values. */
  function KeysOf(members: seq<(string, Value)>): seq<(string, ValueKind)> {
    seq(|members|, i requires 0 <= i < |members| => (members[i].0, KindOf(members[i].1)))
  }

  /** The values of members. */
  function ValuesOf(members: seq<(string, Value)>): seq<Value> {
    seq(|members|, i requires 0 <= i < |members| => members[i].1)
  }

  /** Text that cannot continue the digits of a number before it. */
  predicate StartsWithNonDigit(s: string) {
    |s| > 0 && !IsDigit(s[0])
  }

  /** A member value reads back as itself when something other than a digit follows it. */
  lemma ParseValueOfJson(v: Value, rest: string)
    requires StartsWithNonDigit(rest)
    ensures ParseValue(KindOf(v), ValueJson(v) + rest) == Some((v, rest))
  {
    match v
    case Str(text) => ParseQuotedOfQuote(text, rest);
    case Num(n) => ParseNatOfText(n, rest);
  }

  /** No key starts with a digit. */
  predicate NonDigitKeys(members: seq<(string, Value)>) {
    forall i :: 0 <= i < |members| ==> StartsWithNonDigit(members[i].0)
  }

  /** Written members start with the first key, or are `after` when there are none. */
  lemma MembersJsonStart(members: seq<(string, Value)>, after: string)
    requires NonDigitKeys(members) && StartsWithNonDigit(after)
    ensures StartsWithNonDigit(MembersJson(members, after))
  {
    if |members| > 0 {
      var written := MembersJson(members, after);
      assert StartsWithNonDigit(members[0].0);
      assert written[0] == members[0].0[0];
    }
  }

  /** One member read, then the others. */
  lemma ParseMembersCons(keys: seq<(string, ValueKind)>, s: string, t: string, v: Value, rest: string,
                         values: seq<Value>, after: string)
    requires |keys| > 0
    requires Expect(keys[0].0, s) == Some(t)
    requires ParseValue(keys[0].1, t) == Some((v, rest))
    requires ParseMembers(keys[1..], rest) == Some((values, after))
    ensures ParseMembers(keys, s) == Some(([v] + values, after))
  {
  }

  /** The keys and the values of members, first member apart. */
  lemma MembersCons(members: seq<(string, Value)>)
    requires |members| > 0
    ensures KeysOf(members)[0] == (members[0].0, KindOf(members[0].1))
    ensures KeysOf(members)[1..] == KeysOf(members[1..])
    ensures ValuesOf(members) == [members[0].1] + ValuesOf(members[1..])
    ensures NonDigitKeys(members) ==> NonDigitKeys(members[1..])
  {
    assert ValuesOf(members)[1..] == ValuesOf(members[1..]);
    if NonDigitKeys(members) {
      forall i | 0 <= i < |members| - 1 ensures StartsWithNonDigit(members[1..][i].0) {
        assert members[1..][i] == members[i + 1];
      }
    }
  }

  /** Written members read back as their values, in order, when their keys are the ones expected. */
  lemma {:induction false} ParseMembersOfJson(members: seq<(string, Value)>, after: string)
    requires NonDigitKeys(members) && StartsWithNonDigit(after)
    ensures ParseMembers(KeysOf(members), MembersJson(members, after)) == Some((ValuesOf(members), after))
  {
    if |members| == 0 {
      assert KeysOf(members) == [] && ValuesOf(members) == [];
    } else {
      var key := members[0].0;
      var v := members[0].1;
      var next := MembersJson(members[1..], after);
      assert MembersJson(members, after) == key + (ValueJson(v) + next);
      MembersCons(members);
      assert StartsWithNonDigit(key);
      MembersJsonStart(members[1..], after);
      ExpectLiteral(key, ValueJson(v) + next);
      ParseValueOfJson(v, next);
      ParseMembersOfJson(members[1..], after);
      ParseMembersCons(KeysOf(members), MembersJson(members, after), ValueJson(v) + next, v, next,
                       ValuesOf(members[1..]), after);
    }
  }

  /** The members an item is written with are those an item object is read with. */
  lemma ItemMembersMatchKeys(item: SavedItem)
    ensures KeysOf(ItemMembers(item)) == ItemKeys
    ensures ItemOf(ValuesOf(ItemMembers(item))) == Some(item)
    ensures NonDigitKeys(ItemMembers(item))
  {
    var values := ValuesOf(ItemMembers(item));
    assert values == [Str(TypeName(item.kind)), Str(item.content), Str(item.title), Str(item.id), Num(item.timestamp)];
    assert ItemTypeOf(TypeName(item.kind)) == Some(item.kind);
  }

  /** An item object is its members followed by a closing brace. */
  lemma ParseItemOfMembers(s: string, values: seq<Value>, item: SavedItem, rest: string)
    requires ParseMembers(ItemKeys, s) == Some((values, "}" + rest))
    requires ItemOf(values) == Some(item)
    ensures ParseItem(s) == Some((item, rest))
  {
    ExpectLiteral("}", rest);
  }

  /** An item object reads back as the item, leaving what follows it. */
  lemma ParseItemOfJson(item: SavedItem, rest: string)
    ensures ParseItem(ItemJson(item, rest)) == Some((item, rest))
  {
    var members := ItemMembers(item);
    ItemMembersMatchKeys(item);
    ParseMembersOfJson(members, "}" + rest);
    ParseItemOfMembers(ItemJson(item, rest), ValuesOf(members), item, rest);
  }

  /** An item followed by the closing bracket is the last element. */
  lemma ParseElementsLast(s: string, item: SavedItem)
    requires ParseItem(s) == Some((item, "]"))
    ensures ParseElements(s) == Some([item])
  {
  }

  /** An item followed by a comma is read ahead of the elements after the comma. */
  lemma ParseElementsNext(s: string, item: SavedItem, tail: string, more: seq<SavedItem>)
    requires ParseItem(s) == Some((item, "," + tail))
    requires ParseElements(tail) == Some(more)
    ensures ParseElements(s) == Some([item] + more)
  {
    assert ("," + tail)[1..] == tail;
  }

  /** The elements of two or more items: the first object, a comma, then the rest. */
  lemma ElementsJsonCons(items: seq<SavedItem>, after: string)
    requires |items| > 1
    ensures ElementsJson(items, after) == ItemJson(items[0], "," + ElementsJson(items[1..], after))
  {
  }

  lemma {:induction false} ParseElementsOfJson(items: seq<SavedItem>)
    requires |items| > 0
    ensures ParseElements(ElementsJson(items, "]")) == Some(items)
  {
    var s := ElementsJson(items, "]");
    if |items| == 1 {
      ParseItemOfJson(items[0], "]");
      ParseElementsLast(s, items[0]);
      assert [items[0]] == items;
    } else {
      var tail := ElementsJson(items[1..], "]");
      ElementsJsonCons(items, "]");
      ParseItemOfJson(items[0], "," + tail);
      ParseElementsOfJson(items[1..]);
      ParseElementsNext(s, items[0], tail, items[1..]);
      assert [items[0]] + items[1..] == items;
    }
  }

  /** An item object opens with a brace. */
  lemma ItemJsonOpens(item: SavedItem, after: string)
    ensures ItemJson(item, after)[0] == '{'
  {
    var members := ItemMembers(item);
    assert ItemJson(item, after) == TypeKey + (ValueJson(members[0].1) + MembersJson(members[1..], "}" + after));
  }

  /** Reading a serialised archive gives back the same items, in the same order. */
  lemma ParseSerialize(items: seq<SavedItem>)
    ensures Parse(Serialize(items)) == Some(items)
  {
    if |items| > 0 {
      var body := ElementsJson(items, "]");
      ItemJsonOpens(items[0], if |items| == 1 then "]" else "," + ElementsJson(items[1..], "]"));
      assert body[0] == '{';
      assert Serialize(items)[1] == '{';
      ExpectLiteral("[", body);
      ParseElementsOfJson(items);
    }
  }
}
