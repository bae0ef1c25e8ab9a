/** Deep links to a task: printing the three attributes as a URL query and parsing
    one back. */
module TaskLink {
  import opened Basics
  import opened Utf8

  const MAX_VALUE_BYTES: nat := 512
  const PAIRING_DIGITS: nat := 64

  datatype Attributes = Attributes(pairing: string, workspace: string, thread: string)

  /** A URL already divided into its components; the query is still percent-encoded. */
  datatype Url = Url(scheme: string, host: string, query: Option<string>)

  datatype QueryItem = QueryItem(name: string, value: Option<string>)

  // ---- percent-encoding, section 2.1 of RFC 3986 ----

  predicate Unreserved(c: char) {
    'a' <= c <= 'z' || 'A' <= c <= 'Z' || '0' <= c <= '9' || c in "-._~"
  }

  /** A character that may stand for itself in a query (section 3.4). */
  predicate QueryChar(c: char) { Unreserved(c) || c in "!$&'()*+,;=:@/?" }

  /** Which characters an encoder leaves alone: any query characters but the two
      that delimit items. */
  ghost predicate LeavesAlone(plain: char -> bool) {
    forall c :: plain(c) ==> QueryChar(c) && c != '&' && c != '='
  }

  function HexDigit(n: int): char
    requires 0 <= n < 16
  {
    if n < 10 then ('0' as int + n) as char else ('A' as int + n - 10) as char
  }

  function HexValue(c: char): Option<int> {
    if '0' <= c <= '9' then Some(c as int - '0' as int)
    else if 'A' <= c <= 'F' then Some(c as int - 'A' as int + 10)
    else if 'a' <= c <= 'f' then Some(c as int - 'a' as int + 10)
    else None
  }

  function EscapeByte(b: Byte, plain: char -> bool): string {
    if b < 128 && plain(b as char) then [b as char] else ['%', HexDigit(b / 16), HexDigit(b % 16)]
  }

  function Escape(bytes: seq<Byte>, plain: char -> bool): string {
    if bytes == [] then "" else EscapeByte(bytes[0], plain) + Escape(bytes[1..], plain)
  }

  function Unescape(s: string): Option<seq<Byte>>
    decreases |s|
  {
    if s == "" then Some([])
    else if s[0] == '%' then
      if |s| < 3 || HexValue(s[1]).None? || HexValue(s[2]).None? then None else
      var rest := Unescape(s[3..]);
      if rest.None? then None else Some([(16 * HexValue(s[1]).value + HexValue(s[2]).value) as Byte] + rest.value)
    else if s[0] as int >= 128 then None
    else
      var rest := Unescape(s[1..]);
      if rest.None? then None else Some([s[0] as int as Byte] + rest.value)
  }

  lemma UnescapeByte(b: Byte, plain: char -> bool, rest: string)
    requires LeavesAlone(plain)
    ensures Unescape(EscapeByte(b, plain) + rest)
         == if Unescape(rest).None? then None else Some([b] + Unescape(rest).value)
    ensures forall c :: c in EscapeByte(b, plain) ==> c != '&' && c != '='
  {
    var e := EscapeByte(b, plain);
    var s := e + rest;
    assert s[|e|..] == rest;
    if |e| == 1 {
      assert s[0] as int == b && !QueryChar('%');
    } else {
      assert HexValue(HexDigit(b / 16)) == Some(b / 16) && HexValue(HexDigit(b % 16)) == Some(b % 16);
      assert s[0] == '%' && s[1] == HexDigit(b / 16) && s[2] == HexDigit(b % 16);
    }
  }

  lemma {:induction false} UnescapeEscape(bytes: seq<Byte>, plain: char -> bool)
    requires LeavesAlone(plain)
    ensures Unescape(Escape(bytes, plain)) == Some(bytes)
    ensures forall c :: c in Escape(bytes, plain) ==> c != '&' && c != '='
  {
    if bytes != [] {
      UnescapeEscape(bytes[1..], plain);
      UnescapeByte(bytes[0], plain, Escape(bytes[1..], plain));
      assert bytes == [bytes[0]] + bytes[1..];
    }
  }

  function EncodeText(s: string, plain: char -> bool): string { Escape(EncodeAll(s), plain) }

  function DecodeText(s: string): Option<string> {
    var bytes := Unescape(s);
    if bytes.None? then None else Decode(bytes.value)
  }

  lemma DecodeTextEncodeText(s: string, plain: char -> bool)
    requires LeavesAlone(plain)
    ensures DecodeText(EncodeText(s, plain)) == Some(s)
    ensures '&' !in EncodeText(s, plain) && '=' !in EncodeText(s, plain)
  {
    UnescapeEscape(EncodeAll(s), plain);
    DecodeEncode(s);
  }

  // ---- query items ----

  /** Everything before the first delimiter, and what follows it, if there is one. */
  function CutAt(s: string, delimiter: char): (string, Option<string>) {
    if s == "" then ("", None)
    else if s[0] == delimiter then ("", Some(s[1..]))
    else var (a, b) := CutAt(s[1..], delimiter); ([s[0]] + a, b)
  }

  lemma {:induction false} CutAtFirst(a: string, delimiter: char, b: string)
    requires delimiter !in a
    ensures CutAt(a + [delimiter] + b, delimiter) == (a, Some(b))
    ensures CutAt(a, delimiter) == (a, None)
  {
    if a == "" {
      assert (a + [delimiter] + b)[1..] == b;
    } else {
      CutAtFirst(a[1..], delimiter, b);
      assert (a + [delimiter] + b)[0] == a[0] && (a + [delimiter] + b)[1..] == a[1..] + [delimiter] + b;
      assert [a[0]] + a[1..] == a;
    }
  }

  lemma {:induction false} CutShortens(s: string, delimiter: char)
    ensures CutAt(s, delimiter).1.Some? ==> |CutAt(s, delimiter).1.value| < |s|
  {
    if s != "" { CutShortens(s[1..], delimiter); }
  }

  function ParseItem(s: string): QueryItem {
    var (name, value) := CutAt(s, '=');
    var decoded := DecodeText(name);
    QueryItem(if decoded.Some? then decoded.value else "", if value.Some? then DecodeText(value.value) else None)
  }

  function ParseQuery(query: string): seq<QueryItem>
    decreases |query|
  {
    CutShortens(query, '&');
    var (item, rest) := CutAt(query, '&');
    if query == "" then [] else [ParseItem(item)] + (if rest.Some? then ParseRest(rest.value) else [])
  }

  /** What follows an `&` is an item even if it is empty. */
  function ParseRest(query: string): seq<QueryItem>
    decreases |query|
  {
    CutShortens(query, '&');
    var (item, rest) := CutAt(query, '&');
    [ParseItem(item)] + (if rest.Some? then ParseRest(rest.value) else [])
  }

  function PrintItem(item: QueryItem, plain: char -> bool): string
    requires item.value.Some?
  {
    EncodeText(item.name, plain) + "=" + EncodeText(item.value.value, plain)
  }

  function PrintQuery(items: seq<QueryItem>, plain: char -> bool): string
    requires forall i :: i in items ==> i.value.Some?
  {
    if items == [] then ""
    else if |items| == 1 then PrintItem(items[0], plain)
    else PrintItem(items[0], plain) + "&" + PrintQuery(items[1..], plain)
  }

  lemma ParsePrintItem(item: QueryItem, plain: char -> bool)
    requires item.value.Some? && LeavesAlone(plain)
    ensures ParseItem(PrintItem(item, plain)) == item
    ensures '&' !in PrintItem(item, plain) && PrintItem(item, plain) != ""
  {
    DecodeTextEncodeText(item.name, plain);
    DecodeTextEncodeText(item.value.value, plain);
    var s := PrintItem(item, plain);
    assert s == EncodeText(item.name, plain) + ['='] + EncodeText(item.value.value, plain);
    CutAtFirst(EncodeText(item.name, plain), '=', EncodeText(item.value.value, plain));
  }

  lemma {:induction false} ParseRestPrintQuery(items: seq<QueryItem>, plain: char -> bool)
    requires items != [] && LeavesAlone(plain) && forall i :: i in items ==> i.value.Some?
    ensures ParseRest(PrintQuery(items, plain)) == items
    ensures PrintQuery(items, plain) != ""
  {
    var first := PrintItem(items[0], plain);
    ParsePrintItem(items[0], plain);
    hide PrintItem, ParseItem, CutAt, LeavesAlone;
    CutShortens(PrintQuery(items, plain), '&');
    if |items| == 1 {
      CutAtFirst(first, '&', "");
    } else {
      ParseRestPrintQuery(items[1..], plain);
      assert first + "&" + PrintQuery(items[1..], plain) == first + ['&'] + PrintQuery(items[1..], plain);
      CutAtFirst(first, '&', PrintQuery(items[1..], plain));
      assert items == [items[0]] + items[1..];
    }
  }

  /** A printed query parses back to the items it was printed from. */
  lemma ParsePrintQuery(items: seq<QueryItem>, plain: char -> bool)
    requires LeavesAlone(plain) && forall i :: i in items ==> i.value.Some?
    ensures ParseQuery(PrintQuery(items, plain)) == items
  {
    if items != [] { ParseRestPrintQuery(items, plain); }
  }

  // ---- attributes ----

  /** `Character.isHexDigit`: ASCII or full-width. */
  predicate IsHexDigit(c: char) {
    '0' <= c <= '9' || 'A' <= c <= 'F' || 'a' <= c <= 'f'
    || '\U{FF10}' <= c <= '\U{FF19}' || '\U{FF21}' <= c <= '\U{FF26}' || '\U{FF41}' <= c <= '\U{FF46}'
  }

  predicate ValidValue(s: string) { s != "" && |EncodeAll(s)| <= MAX_VALUE_BYTES }

  predicate ValidPairing(s: string) { |s| == PAIRING_DIGITS && forall c :: c in s ==> IsHexDigit(c) }

  /** What a caller can check before printing. */
  predicate Valid(a: Attributes) {
    ValidPairing(a.pairing) && ValidValue(a.workspace) && ValidValue(a.thread)
  }

  function Matching(items: seq<QueryItem>, key: string): seq<QueryItem> {
    if items == [] then [] else (if items[0].name == key then [items[0]] else []) + Matching(items[1..], key)
  }

  /** `value(_:)`: the one value under this key, if it is acceptable. */
  function ValueOf(items: seq<QueryItem>, key: string): Option<string> {
    var matches := Matching(items, key);
    if |matches| == 1 && matches[0].value.Some? && ValidValue(matches[0].value.value) then matches[0].value else None
  }

  function FromItems(items: seq<QueryItem>): Option<Attributes> {
    if |items| != 3 then None else
    var pairing, workspace, thread := ValueOf(items, "pairing"), ValueOf(items, "workspace"), ValueOf(items, "thread");
    if pairing.None? || !ValidPairing(pairing.value) || workspace.None? || thread.None? then None
    else Some(Attributes(pairing.value, workspace.value, thread.value))
  }

  function ItemsOf(a: Attributes): seq<QueryItem> {
    [QueryItem("pairing", Some(a.pairing)), QueryItem("workspace", Some(a.workspace)),
     QueryItem("thread", Some(a.thread))]
  }

  function Print(a: Attributes, plain: char -> bool): Url {
    Url("falcondeck-native", "task", Some(PrintQuery(ItemsOf(a), plain)))
  }

  function Parse(url: Url): Option<Attributes> {
    if url.scheme != "falcondeck-native" || url.host != "task" || url.query.None? then None
    else FromItems(ParseQuery(url.query.value))
  }

  // ---- order, duplicates, missing and extra items ----

  lemma {:induction false} MatchingCounts(items: seq<QueryItem>, key: string)
    ensures forall i :: multiset(Matching(items, key))[i] == if i.name == key then multiset(items)[i] else 0
  {
    if items != [] {
      MatchingCounts(items[1..], key);
      assert items == [items[0]] + items[1..];
    }
  }

  lemma MatchingOfRearranged(xs: seq<QueryItem>, ys: seq<QueryItem>, key: string)
    requires multiset(xs) == multiset(ys)
    ensures multiset(Matching(xs, key)) == multiset(Matching(ys, key))
  {
    MatchingCounts(xs, key);
    MatchingCounts(ys, key);
  }

  lemma SameSingletons(xs: seq<QueryItem>, ys: seq<QueryItem>)
    requires multiset(xs) == multiset(ys)
    ensures |xs| == |ys| && (|xs| == 1 ==> xs == ys)
  {
    assert |multiset(xs)| == |xs| && |multiset(ys)| == |ys|;
    if |xs| == 1 {
      assert xs[0] in multiset(ys);
      assert xs[0] == ys[0];
    }
  }

  lemma ValueOfRearranged(xs: seq<QueryItem>, ys: seq<QueryItem>, key: string)
    requires multiset(xs) == multiset(ys)
    ensures ValueOf(xs, key) == ValueOf(ys, key)
  {
    MatchingOfRearranged(xs, ys, key);
    SameSingletons(Matching(xs, key), Matching(ys, key));
    hide ValidValue, Matching;
  }

  lemma MatchingCons(item: QueryItem, rest: seq<QueryItem>, key: string)
    ensures Matching([item] + rest, key) == (if item.name == key then [item] else []) + Matching(rest, key)
  {
    assert ([item] + rest)[1..] == rest;
  }

  lemma ValuesOfItems(a: Attributes)
    ensures Matching(ItemsOf(a), "pairing") == [ItemsOf(a)[0]]
    ensures Matching(ItemsOf(a), "workspace") == [ItemsOf(a)[1]]
    ensures Matching(ItemsOf(a), "thread") == [ItemsOf(a)[2]]
  {
    var p, w, t := ItemsOf(a)[0], ItemsOf(a)[1], ItemsOf(a)[2];
    assert |p.name| == 7 && |w.name| == 9 && |t.name| == 6;
    forall key
      ensures Matching([p, w, t], key)
           == (if p.name == key then [p] else []) + (if w.name == key then [w] else [])
              + (if t.name == key then [t] else [])
    {
      MatchingCons(p, [w, t], key);
      MatchingCons(w, [t], key);
      MatchingCons(t, [], key);
      assert [p, w, t] == [p] + [w, t] && [w, t] == [w] + [t] && [t] == [t] + [];
    }
  }

  lemma PairingFits(s: string)
    requires ValidPairing(s)
    ensures ValidValue(s)
  {
    EncodedSize(s);
  }

  lemma ValueOfIsAnItem(items: seq<QueryItem>, key: string)
    requires ValueOf(items, key).Some?
    ensures QueryItem(key, ValueOf(items, key)) in items && ValidValue(ValueOf(items, key).value)
  {
    MatchingCounts(items, key);
    var m := Matching(items, key)[0];
    assert m in multiset(Matching(items, key));
  }

  lemma ThreeItems(items: seq<QueryItem>, a: QueryItem, b: QueryItem, c: QueryItem)
    requires |items| == 3 && a in items && b in items && c in items && a != b && b != c && a != c
    ensures multiset(items) == multiset{a, b, c}
  {
    assert items == [items[0], items[1], items[2]];
  }

  /** Exactly the rearrangements of three valid items parse: a duplicate, a missing
      or an extra item is rejected, and order does not matter. */
  lemma ParsesExactlyRearrangements(items: seq<QueryItem>, a: Attributes)
    ensures FromItems(items) == Some(a) <==> Valid(a) && multiset(items) == multiset(ItemsOf(a))
  {
    if FromItems(items) == Some(a) {
      ValueOfIsAnItem(items, "pairing");
      ValueOfIsAnItem(items, "workspace");
      ValueOfIsAnItem(items, "thread");
      var expected := ItemsOf(a);
      ThreeItems(items, expected[0], expected[1], expected[2]);
    }
    if Valid(a) && multiset(items) == multiset(ItemsOf(a)) {
      assert |multiset(items)| == |items| && |multiset(ItemsOf(a))| == 3;
      ValueOfRearranged(items, ItemsOf(a), "pairing");
      ValueOfRearranged(items, ItemsOf(a), "workspace");
      ValueOfRearranged(items, ItemsOf(a), "thread");
      ValuesOfItems(a);
      PairingFits(a.pairing);
    }
  }

  /** Parsing a printed link gives the attributes back exactly if they are valid,
      whichever query characters the encoder leaves unescaped. */
  lemma RoundTrip(a: Attributes, plain: char -> bool)
    requires LeavesAlone(plain)
    ensures Parse(Print(a, plain)) == Some(a) <==> Valid(a)
  {
    hide PrintQuery, ParseQuery, FromItems;
    ParsePrintQuery(ItemsOf(a), plain);
    ParsesExactlyRearrangements(ItemsOf(a), a);
  }

  /** A link whose items were put in another order parses to the same attributes. */
  lemma ReorderedLinkParses(a: Attributes, items: seq<QueryItem>, plain: char -> bool)
    requires LeavesAlone(plain) && Valid(a) && multiset(items) == multiset(ItemsOf(a))
    ensures (forall i :: i in items ==> i.value.Some?)
    ensures Parse(Print(a, plain).(query := Some(PrintQuery(items, plain)))) == Some(a)
  {
    forall i | i in items ensures i.value.Some? {
      assert i in multiset(items);
      assert i in ItemsOf(a);
    }
    ParsePrintQuery(items, plain);
    ParsesExactlyRearrangements(items, a);
  }

  /** Whatever the URL, attributes that come out of it are valid, and its query
      holds exactly their three items. */
  lemma ParsedIsValid(url: Url)
    requires Parse(url).Some?
    ensures Valid(Parse(url).value)
    ensures url.query.Some? && multiset(ParseQuery(url.query.value)) == multiset(ItemsOf(Parse(url).value))
  {
    ParsesExactlyRearrangements(ParseQuery(url.query.value), Parse(url).value);
  }

  /** The ASCII form of a full-width character. */
  function Narrow(c: char): char { if '\U{FF01}' <= c <= '\U{FF5E}' then (c as int - 0xFEE0) as char else c }

  lemma HexDigitMeans(c: char)
    ensures IsHexDigit(c) <==> HexValue(Narrow(c)).Some?
  {}

  /** Attributes are valid exactly if the pairing is 64 hexadecimal digits, each ASCII or
      full-width, and the other two take between 1 and 512 bytes. */
  lemma ValidMeans(a: Attributes)
    ensures Valid(a) <==>
      && |a.pairing| == 64 && (forall c :: c in a.pairing ==> HexValue(Narrow(c)).Some?)
      && 1 <= |EncodeAll(a.workspace)| <= 512 && 1 <= |EncodeAll(a.thread)| <= 512
  {
    forall c ensures IsHexDigit(c) <==> HexValue(Narrow(c)).Some? { HexDigitMeans(c); }
    hide IsHexDigit, HexValue, Narrow;
    EncodedSize(a.workspace);
    EncodedSize(a.thread);
  }

  /** A URL parses exactly if its scheme, host and query are those of a task link. */
  lemma ParsesExactly(url: Url, a: Attributes)
    ensures Parse(url) == Some(a) <==>
      && url.scheme == "falcondeck-native" && url.host == "task" && url.query.Some?
      && Valid(a) && multiset(ParseQuery(url.query.value)) == multiset(ItemsOf(a))
  {
    if url.query.Some? { ParsesExactlyRearrangements(ParseQuery(url.query.value), a); }
    hide ParseQuery, FromItems, Valid;
  }

  predicate AllLower(s: string) { s == "" || ('a' <= s[0] <= 'z' && AllLower(s[1..])) }

  lemma NamesAreLower()
    ensures AllLower("pairing") && AllLower("workspace") && AllLower("thread")
  {}

  lemma {:induction false} EscapeLeaves(s: string, plain: char -> bool)
    requires AllLower(s)
    requires forall c :: 'a' <= c <= 'z' ==> plain(c)
    ensures EncodeText(s, plain) == s
  {
    if s != "" {
      EscapeLeaves(s[1..], plain);
      assert Encode(s[0]) == [s[0] as int];
      var rest := EncodeAll(s[1..]);
      assert EncodeAll(s) == [s[0] as int as Byte] + rest && ([s[0] as int as Byte] + rest)[1..] == rest;
      assert s == [s[0]] + s[1..];
    }
  }

  /** The text of an item whose name needs no encoding. */
  function Named(name: string, value: string, plain: char -> bool): string {
    name + "=" + EncodeText(value, plain)
  }

  lemma PrintThree(a: QueryItem, b: QueryItem, c: QueryItem, plain: char -> bool)
    requires a.value.Some? && b.value.Some? && c.value.Some?
    requires EncodeText(a.name, plain) == a.name && EncodeText(b.name, plain) == b.name
    requires EncodeText(c.name, plain) == c.name
    ensures PrintQuery([a, b, c], plain)
         == Named(a.name, a.value.value, plain)
            + "&" + (Named(b.name, b.value.value, plain) + "&" + Named(c.name, c.value.value, plain))
  {
    hide EncodeText;
    assert [a, b, c][1..] == [b, c] && [b, c][1..] == [c];
    assert PrintQuery([c], plain) == Named(c.name, c.value.value, plain);
    assert PrintQuery([b, c], plain) == PrintItem(b, plain) + "&" + PrintQuery([c], plain);
    assert PrintQuery([a, b, c], plain) == PrintItem(a, plain) + "&" + PrintQuery([b, c], plain);
  }

  lemma NamesStay(plain: char -> bool)
    requires forall c :: 'a' <= c <= 'z' ==> plain(c)
    ensures EncodeText("pairing", plain) == "pairing"
    ensures EncodeText("workspace", plain) == "workspace"
    ensures EncodeText("thread", plain) == "thread"
  {
    NamesAreLower();
    hide AllLower, EncodeText;
    EscapeLeaves("pairing", plain);
    EscapeLeaves("workspace", plain);
    EscapeLeaves("thread", plain);
  }

  /** The link as text: three named items, their values percent-encoded. */
  lemma PrintedLink(a: Attributes, plain: char -> bool)
    requires forall c :: 'a' <= c <= 'z' ==> plain(c)
    ensures Print(a, plain) == Url("falcondeck-native", "task", Some(
      Named("pairing", a.pairing, plain)
      + "&" + (Named("workspace", a.workspace, plain) + "&" + Named("thread", a.thread, plain))))
  {
    NamesStay(plain);
    hide EncodeText, PrintQuery, Named;
    PrintThree(ItemsOf(a)[0], ItemsOf(a)[1], ItemsOf(a)[2], plain);
  }
}
