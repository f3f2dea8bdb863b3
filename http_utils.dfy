/** The helpers every handler shares: reading the `queries` parameter,
    appending the common response headers, and rendering the Fortunes page. */
module HttpUtils {
  import opened Wrappers
  import opened KotlinText
  import opened Models

  /** The largest number of queries one request may ask for. */
  const MAX_QUERIES: int := 500

  /** `Int.coerceIn(min, max)`. */
  function CoerceIn(n: int, lo: int, hi: int): (r: int)
    requires lo <= hi
    ensures lo <= r <= hi
    ensures lo <= n <= hi ==> r == n
    ensures n < lo ==> r == lo
    ensures n > hi ==> r == hi
  {
    if n < lo then lo else if n > hi then hi else n
  }

  /** `HttpServerRequest.getQueries()`, given the request's first `queries`
      parameter (None when the request has none). */
  function GetQueries(param: Option<string>): (r: int)
    ensures 1 <= r <= MAX_QUERIES
  {
    match param
    case None => 1
    case Some(text) =>
      match ToIntOrNull(text)
      case None => 1
      case Some(n) => CoerceIn(n, 1, MAX_QUERIES)
  }

  /** A numeral for any `Int` n gives n clamped to [1, MAX_QUERIES]; in
      particular every count in that range is taken as it is. */
  lemma GetQueriesOfNumeral(n: int)
    requires IsInt(n)
    ensures GetQueries(Some(IntToString(n))) == if n < 1 then 1 else if n > MAX_QUERIES then MAX_QUERIES else n
  {
    ToIntOrNullOfIntToString(n);
  }

  /** A missing parameter, or one that is not an `Int`, means one query. */
  lemma GetQueriesDefault(param: Option<string>)
    requires param.None? || ToIntOrNull(param.value).None?
    ensures GetQueries(param) == 1
  {
  }

  /** The documented examples: 0 and 501 are clamped, garbage and a numeral
      too wide for an `Int` fall back to 1 (not to 500). */
  lemma GetQueriesExamples()
    ensures GetQueries(Some("0")) == 1
    ensures GetQueries(Some("501")) == 500
    ensures GetQueries(Some("abc")) == 1
    ensures GetQueries(Some("99999999999")) == 1
    ensures GetQueries(Some("20")) == 20
  {
    GetQueriesOfNumeral(0);
    assert IntToString(0) == "0";
    GetQueriesOfNumeral(501);
    assert IntToString(501) == "501";
    GetQueriesOfNumeral(20);
    assert IntToString(20) == "20";
    assert !AllDigits("abc") by { assert !IsDigit("abc"[0]); }
    LongNumeralIsNotInt("99999999999");
  }

  /** Header names as Vert.x's `HttpHeaders` constants spell them. */
  const SERVER: string := "server"
  const DATE: string := "date"
  const CONTENT_TYPE: string := "content-type"

  /** Header values from `HttpHeaderValues`. */
  const VERTX_WEB: string := "Vert.x-Web"
  const APPLICATION_JSON: string := "application/json"
  const TEXT_HTML_UTF8: string := "text/html; charset=utf-8"

  /** A Vert.x `MultiMap` of response headers: entries in the order they were
      added, repeated names allowed. */
  class MultiMap {
    var entries: seq<(string, string)>

    constructor ()
      ensures entries == []
    {
      entries := [];
    }

    method Add(name: string, value: string)
      modifies this
      ensures entries == old(entries) + [(name, value)]
    {
      entries := entries + [(name, value)];
    }
  }

  /** `MultiMap.addCommonHeaders(date)`: appends Server, then Date. */
  method AddCommonHeaders(headers: MultiMap, date: string)
    modifies headers
    ensures headers.entries == old(headers.entries) + [(SERVER, VERTX_WEB), (DATE, date)]
  {
    headers.Add(SERVER, VERTX_WEB);
    headers.Add(DATE, date);
  }

  /** `HttpServerResponse.addJsonResponseHeaders(date)`, on the response's
      header map: the common headers, then the JSON content type. */
  method AddJsonResponseHeaders(headers: MultiMap, date: string)
    modifies headers
    ensures headers.entries
         == old(headers.entries) + [(SERVER, VERTX_WEB), (DATE, date), (CONTENT_TYPE, APPLICATION_JSON)]
  {
    AddCommonHeaders(headers, date);
    headers.Add(CONTENT_TYPE, APPLICATION_JSON);
  }

  /** How kotlinx.html escapes one character of text content. */
  function EscapeChar(c: char): string
  {
    if c == '<' then "&lt;"
    else if c == '>' then "&gt;"
    else if c == '&' then "&amp;"
    else if c == '"' then "&quot;"
    else [c]
  }

  /** Text content as kotlinx.html writes it. */
  function EscapeText(s: string): (e: string)
    ensures |e| >= |s|
  {
    if s == [] then [] else EscapeChar(s[0]) + EscapeText(s[1..])
  }

  predicate StartsWith(s: string, prefix: string)
  {
    |prefix| <= |s| && s[..|prefix|] == prefix
  }

  /** What a browser reads back from escaped text: the four entities
      kotlinx.html writes become their characters again. */
  function UnescapeText(e: string): string
  {
    if e == [] then []
    else if StartsWith(e, "&lt;") then "<" + UnescapeText(e[4..])
    else if StartsWith(e, "&gt;") then ">" + UnescapeText(e[4..])
    else if StartsWith(e, "&amp;") then "&" + UnescapeText(e[5..])
    else if StartsWith(e, "&quot;") then "\"" + UnescapeText(e[6..])
    else [e[0]] + UnescapeText(e[1..])
  }

  lemma Split<T>(a: seq<T>, x: seq<T>)
    ensures (a + x)[..|a|] == a && (a + x)[|a|..] == x
  {
  }

  lemma Regroup<T>(a: seq<T>, b: seq<T>, c: seq<T>, d: seq<T>, e: seq<T>, r: seq<T>)
    ensures a + b + c + d + e + r == a + (b + (c + (d + (e + r))))
  {
  }

  lemma UnescapeEntity(entity: string, c: char, rest: string)
    requires entity in ["&lt;", "&gt;", "&amp;", "&quot;"]
    requires c == (if entity == "&lt;" then '<' else if entity == "&gt;" then '>'
                   else if entity == "&amp;" then '&' else '"')
    ensures UnescapeText(entity + rest) == [c] + UnescapeText(rest)
  {
    var e := entity + rest;
    Split(entity, rest);
    assert e[1] == entity[1];
  }

  lemma NotStartsWith(s: string, prefix: string)
    requires s != [] && prefix != [] && s[0] != prefix[0]
    ensures !StartsWith(s, prefix)
  {
    if |prefix| <= |s| {
      assert s[..|prefix|][0] == s[0];
    }
  }

  lemma UnescapePlain(c: char, rest: string)
    requires c != '&'
    ensures UnescapeText([c] + rest) == [c] + UnescapeText(rest)
  {
    var e := [c] + rest;
    assert e[0] == c && e[1..] == rest;
    NotStartsWith(e, "&lt;");
    NotStartsWith(e, "&gt;");
    NotStartsWith(e, "&amp;");
    NotStartsWith(e, "&quot;");
  }

  /** Escaping loses nothing: the reader gets the exact message back. */
  lemma {:induction false} UnescapeEscape(s: string)
    ensures UnescapeText(EscapeText(s)) == s
  {
    if s != [] {
      var c := s[0];
      UnescapeEscape(s[1..]);
      if c == '<' {
        UnescapeEntity("&lt;", c, EscapeText(s[1..]));
      } else if c == '>' {
        UnescapeEntity("&gt;", c, EscapeText(s[1..]));
      } else if c == '&' {
        UnescapeEntity("&amp;", c, EscapeText(s[1..]));
      } else if c == '"' {
        UnescapeEntity("&quot;", c, EscapeText(s[1..]));
      } else {
        UnescapePlain(c, EscapeText(s[1..]));
      }
      assert s == [c] + s[1..];
    }
  }

  /** Escaped text holds no markup delimiter, so a message such as
      "<script>" cannot open a tag. */
  lemma {:induction false} EscapedHasNoMarkup(s: string)
    ensures '<' !in EscapeText(s) && '>' !in EscapeText(s) && '"' !in EscapeText(s)
  {
    if s != [] {
      EscapedHasNoMarkup(s[1..]);
    }
  }

  lemma {:induction false} EscapeTextAppend(a: string, b: string)
    ensures EscapeText(a + b) == EscapeText(a) + EscapeText(b)
  {
    if a != [] {
      assert (a + b)[0] == a[0] && (a + b)[1..] == a[1..] + b;
      EscapeTextAppend(a[1..], b);
    } else {
      assert a + b == b;
    }
  }

  lemma EscapeTextSingle(c: char)
    ensures EscapeText([c]) == EscapeChar(c)
  {
    assert [c][1..] == [];
  }

  /** A tag written inside a message, such as "<script>", is shown as text:
      its brackets become entities and its name is kept. */
  lemma EscapeTagAsText(name: string)
    requires forall i :: 0 <= i < |name| ==> name[i] !in "<>&\""
    ensures EscapeText("<" + name + ">") == "&lt;" + name + "&gt;"
  {
    EscapeTextWrapped("<", name, ">");
    EscapePlainText(name);
    EscapeTextSingle('<');
    EscapeTextSingle('>');
  }

  /** Escaping text between two others escapes each of the three parts. */
  lemma EscapeTextWrapped(a: string, m: string, b: string)
    ensures EscapeText(a + m + b) == EscapeText(a) + EscapeText(m) + EscapeText(b)
  {
    EscapeTextAppend(a + m, b);
    EscapeTextAppend(a, m);
  }

  /** Text made of characters that need no escaping is written as it is. */
  lemma {:induction false} EscapePlainText(s: string)
    requires forall i :: 0 <= i < |s| ==> s[i] !in "<>&\""
    ensures EscapeText(s) == s
  {
    if s != [] {
      EscapePlainText(s[1..]);
      assert s == [s[0]] + s[1..];
    }
  }

  const DOCTYPE: string := "<!DOCTYPE html>"
  const PAGE_HEAD: string := "<html><head><title>Fortunes</title></head><body><table>"
  const HEADER_ROW: string := "<tr><th>id</th><th>message</th></tr>"
  const PAGE_TAIL: string := "</table></body></html>"

  /** One table row: the id in decimal, then the message, both as text. */
  function FortuneRow(f: Fortune): string
  {
    "<tr><td>" + EscapeText(IntToString(f.id)) + "</td><td>" + EscapeText(f.message) + "</td></tr>"
  }

  /** The rows of all fortunes, in list order. */
  function FortuneRows(fortunes: seq<Fortune>): string
  {
    ConcatMap(fortunes, FortuneRow)
  }

  /** The texts of the elements, concatenated in order. */
  function ConcatMap<T>(xs: seq<T>, f: T -> string): string
  {
    if xs == [] then []
    else ConcatMap(xs[..|xs| - 1], f) + f(xs[|xs| - 1])
  }

  /** The page `buildFortunesHtml` writes (kotlinx.html without pretty printing). */
  function FortunesPage(fortunes: seq<Fortune>): (page: string)
    ensures StartsWith(page, DOCTYPE + PAGE_HEAD + HEADER_ROW)
    ensures |page| >= |PAGE_TAIL| && page[|page| - |PAGE_TAIL|..] == PAGE_TAIL
  {
    DOCTYPE + PAGE_HEAD + HEADER_ROW + FortuneRows(fortunes) + PAGE_TAIL
  }

  /** `buildFortunesHtml`: the string builder gets the document head, one row
      per fortune in a loop, and the closing tags. */
  method BuildFortunesHtml(fortunes: seq<Fortune>) returns (html: string)
    ensures html == FortunesPage(fortunes)
  {
    html := DOCTYPE;
    html := html + PAGE_HEAD;
    html := html + HEADER_ROW;
    for i := 0 to |fortunes|
      invariant html == DOCTYPE + PAGE_HEAD + HEADER_ROW + FortuneRows(fortunes[..i])
    {
      var fortune := fortunes[i];
      var row := "<tr><td>" + EscapeText(IntToString(fortune.id)) + "</td><td>"
                 + EscapeText(fortune.message) + "</td></tr>";
      assert fortunes[..i + 1][..i] == fortunes[..i];
      assert FortuneRows(fortunes[..i + 1]) == FortuneRows(fortunes[..i]) + FortuneRow(fortune);
      Associate(DOCTYPE + PAGE_HEAD + HEADER_ROW, FortuneRows(fortunes[..i]), row);
      html := html + row;
    }
    assert fortunes[..|fortunes|] == fortunes;
    html := html + PAGE_TAIL;
  }

  /** The longest prefix of `s` without a '<'. */
  function TextUntilTag(s: string): (t: string)
    ensures |t| <= |s| && t == s[..|t|] && '<' !in t
  {
    if s == [] || s[0] == '<' then [] else [s[0]] + TextUntilTag(s[1..])
  }

  lemma {:induction false} TextUntilTagOf(x: string, y: string)
    requires '<' !in x && StartsWith(y, "<")
    ensures TextUntilTag(x + y) == x
  {
    if x != [] {
      assert (x + y)[1..] == x[1..] + y;
      TextUntilTagOf(x[1..], y);
      assert x == [x[0]] + x[1..];
    } else {
      assert x + y == y;
    }
  }

  /** Splits one row off the front of `s`: the id cell's text, the message
      cell's text and what follows the row. */
  function ReadRow(s: string): (r: Option<(string, string, string)>)
    ensures r.Some? ==> |r.value.2| < |s|
  {
    if !StartsWith(s, "<tr><td>") then None
    else
      var afterOpen := s[8..];
      var idText := TextUntilTag(afterOpen);
      var afterId := afterOpen[|idText|..];
      if !StartsWith(afterId, "</td><td>") then None
      else
        var afterMiddle := afterId[9..];
        var messageText := TextUntilTag(afterMiddle);
        var afterMessage := afterMiddle[|messageText|..];
        if !StartsWith(afterMessage, "</td></tr>") then None
        else Some((idText, messageText, afterMessage[10..]))
  }

  /** Reads the fortunes back from the rows of a table: each row's id is
      parsed as an `Int` and its message unescaped. */
  function ParseRows(s: string): Option<seq<Fortune>>
    decreases |s|
  {
    if s == [] then Some([])
    else match ReadRow(s)
      case None => None
      case Some((idText, messageText, remainder)) =>
        match ToIntOrNull(UnescapeText(idText))
        case None => None
        case Some(id) =>
          match ParseRows(remainder)
          case None => None
          case Some(rest) => Some([Fortune(id, UnescapeText(messageText))] + rest)
  }

  /** Reads the fortunes back from a whole page; accepts only a page that
      opens with the doctype, the title and the header row and closes the
      table and the document. */
  function ParseFortunesPage(page: string): Option<seq<Fortune>>
  {
    var prefix := DOCTYPE + PAGE_HEAD + HEADER_ROW;
    if |prefix| + |PAGE_TAIL| <= |page| && page[..|prefix|] == prefix
       && page[|page| - |PAGE_TAIL|..] == PAGE_TAIL
    then ParseRows(page[|prefix|..|page| - |PAGE_TAIL|])
    else None
  }

  lemma {:induction false} ConcatMapCons<T>(xs: seq<T>, f: T -> string)
    requires xs != []
    ensures ConcatMap(xs, f) == f(xs[0]) + ConcatMap(xs[1..], f)
    decreases |xs|
  {
    var n := |xs|;
    var init, last, tail := xs[..n - 1], xs[n - 1], xs[1..];
    if n > 1 {
      ConcatMapCons(init, f);
      assert init[0] == xs[0];
      assert tail[..|tail| - 1] == init[1..] && tail[|tail| - 1] == last;
      Associate(f(xs[0]), ConcatMap(init[1..], f), f(last));
    } else {
      assert init == [] && tail == [];
    }
  }

  lemma FortuneRowsCons(fortunes: seq<Fortune>)
    requires fortunes != []
    ensures FortuneRows(fortunes) == FortuneRow(fortunes[0]) + FortuneRows(fortunes[1..])
  {
    ConcatMapCons(fortunes, FortuneRow);
  }

  lemma StartsWithAppend(p: string, x: string)
    ensures StartsWith(p + x, p) && (p + x)[|p|..] == x
  {
    Split(p, x);
  }

  /** A marker, text free of '<', then the next tag: the marker is read, the
      text is the cell, and what follows it is the tag. */
  lemma ReadCell(marker: string, text: string, tail: string)
    requires '<' !in text && StartsWith(tail, "<")
    ensures StartsWith(marker + (text + tail), marker)
    ensures (marker + (text + tail))[|marker|..] == text + tail
    ensures TextUntilTag(text + tail) == text && (text + tail)[|text|..] == tail
  {
    StartsWithAppend(marker, text + tail);
    TextUntilTagOf(text, tail);
    Split(text, tail);
  }

  lemma ReadRowOf(idText: string, messageText: string, rest: string)
    requires '<' !in idText && '<' !in messageText
    ensures ReadRow("<tr><td>" + idText + "</td><td>" + messageText + "</td></tr>" + rest)
         == Some((idText, messageText, rest))
  {
    var close := "</td></tr>" + rest;
    var middle := "</td><td>" + (messageText + close);
    Regroup("<tr><td>", idText, "</td><td>", messageText, "</td></tr>", rest);
    ReadCell("<tr><td>", idText, middle);
    ReadCell("</td><td>", messageText, close);
    StartsWithAppend("</td></tr>", rest);
  }

  lemma ParseRow(f: Fortune, rest: string)
    requires IsInt(f.id)
    ensures ParseRows(FortuneRow(f) + rest)
         == match ParseRows(rest)
            case None => None
            case Some(fs) => Some([f] + fs)
  {
    var idText := EscapeText(IntToString(f.id));
    var messageText := EscapeText(f.message);
    EscapedHasNoMarkup(IntToString(f.id));
    EscapedHasNoMarkup(f.message);
    ReadRowOf(idText, messageText, rest);
    UnescapeEscape(IntToString(f.id));
    UnescapeEscape(f.message);
    ToIntOrNullOfIntToString(f.id);
    assert FortuneRow(f) + rest != [];
  }

  /** Every id is an `Int`, as the database column guarantees. */
  predicate IntIds(fortunes: seq<Fortune>)
  {
    forall i :: 0 <= i < |fortunes| ==> IsInt(fortunes[i].id)
  }

  lemma IntIdsSplit(fortunes: seq<Fortune>)
    requires IntIds(fortunes) && fortunes != []
    ensures IsInt(fortunes[0].id) && IntIds(fortunes[1..])
    ensures fortunes == [fortunes[0]] + fortunes[1..]
  {
    assert forall i :: 0 <= i < |fortunes[1..]| ==> fortunes[1..][i] == fortunes[i + 1];
  }

  /** The rows hold exactly the fortunes, one per row, in list order. */
  lemma {:induction false} ParseRowsOfFortuneRows(fortunes: seq<Fortune>)
    requires IntIds(fortunes)
    ensures ParseRows(FortuneRows(fortunes)) == Some(fortunes)
    decreases |fortunes|
  {
    if fortunes != [] {
      IntIdsSplit(fortunes);
      FortuneRowsCons(fortunes);
      ParseRowsOfFortuneRows(fortunes[1..]);
      ParseRow(fortunes[0], FortuneRows(fortunes[1..]));
    }
  }

  /** The page opens with the doctype, the title "Fortunes" and the id/message
      header row (the only pages `ParseFortunesPage` accepts), and its table
      reads back as exactly the list it was built from, in order: one row per
      fortune, the id in decimal, the message unescaped. */
  lemma FortunesPageReadsBack(fortunes: seq<Fortune>)
    requires IntIds(fortunes)
    ensures ParseFortunesPage(FortunesPage(fortunes)) == Some(fortunes)
  {
    var prefix := DOCTYPE + PAGE_HEAD + HEADER_ROW;
    var rows := FortuneRows(fortunes);
    var page := FortunesPage(fortunes);
    assert page == prefix + rows + PAGE_TAIL;
    Split(prefix + rows, PAGE_TAIL);
    Split(prefix, rows);
    assert page[..|prefix|] == prefix;
    assert page[|page| - |PAGE_TAIL|..] == PAGE_TAIL;
    assert page[|prefix|..|page| - |PAGE_TAIL|] == rows;
    ParseRowsOfFortuneRows(fortunes);
  }
}
