/** Reading back what the serializer writes. The library intends `>>` to invert `<<`; as the
    two are written, that holds for a string without quotes, an empty list, an empty
    dictionary, a number (when the number scanner reads back what the formatter wrote)
    and a one-number list. It fails for the literals, for every list holding one string
    and for every non-empty dictionary. */
module RoundTrip {
  import opened Wrappers
  import opened JsonValues
  import opened CharStreams
  import opened JsonParser
  import opened JsonSerializer
  import opened ParserProperties

  /** The scanner reads back exactly what the formatter wrote for `n`, followed by `tail`. */
  predicate ReadsBack(scan: Scanner, fmt: Formatter, n: Number, tail: string)
  {
    scan(fmt(n) + tail) == Some((n, |fmt(n)|))
  }

  /** What `<< double` can start with: a digit, a sign, or the `i` or `n` of `inf` or `nan`. */
  ghost predicate PlainNumbers(fmt: Formatter)
  {
    forall n :: fmt(n) != [] && (IsDigit(fmt(n)[0]) || fmt(n)[0] in {'-', 'i', 'n'})
  }

  /** A string is read back up to its first quote: the whole string exactly when it holds
      no quote. */
  lemma StringRoundTrip(x: string, fmt: Formatter, scan: Scanner)
    ensures Parse(Format(Str(x), fmt), scan) == Ok(Str(x[..QuoteIndex(x, 0)]))
    ensures (forall k :: 0 <= k < |x| ==> x[k] != '"') ==> Parse(Format(Str(x), fmt), scan) == Ok(Str(x))
  {
    var s := Format(Str(x), fmt);
    StringText(x, fmt);
    QuotedPrefix(x, s);
    ParseQuoted(s, scan);
    if forall k :: 0 <= k < |x| ==> x[k] != '"' {
      QuoteFree(x, 0);
      assert x[..|x|] == x;
    }
  }

  /** Layout helper: a string is written between quotes, verbatim. */
  lemma StringText(x: string, fmt: Formatter)
    ensures Format(Str(x), fmt) == "\"" + x + "\""
  {
  }

  /** Between the opening quote of `"x"` and the next quote lies `x` up to its first quote. */
  lemma QuotedPrefix(x: string, s: string)
    requires s == "\"" + x + "\""
    ensures 2 <= |s| && s[0] == '"' && s[|s| - 1] == '"'
    ensures s[1..QuoteIndex(s, 1)] == x[..QuoteIndex(x, 0)]
  {
    QuoteIndexShift(x, s);
    var q := QuoteIndex(x, 0);
    assert forall k :: 0 <= k < q ==> s[1..q + 1][k] == x[..q][k];
  }

  /** Input that starts and ends with a quote is read as the string up to the next quote. */
  lemma ParseQuoted(s: seq<char>, scan: Scanner)
    requires 2 <= |s| && s[0] == '"' && s[|s| - 1] == '"'
    ensures Parse(s, scan) == Ok(Str(s[1..QuoteIndex(s, 1)]))
  {
    assert QuoteIndex(s, 1) < |s|;
    QuotedValue(s, 0, scan);
  }

  /** Quotes are found at the same place in `x` and after the opening quote of `"x"`. */
  lemma QuoteIndexShift(x: string, s: string)
    requires s == "\"" + x + "\""
    ensures QuoteIndex(s, 1) == QuoteIndex(x, 0) + 1
  {
    var q := QuoteIndex(x, 0);
    var i := q + 1;
    assert i < |s| && s[i] == '"';
    assert forall k :: 1 <= k < i ==> s[k] == x[k - 1];
    QuoteIndexAt(s, 1, i);
  }

  /** With no quote from `p` on, the quote search ends at the end. */
  lemma {:induction false} QuoteFree(x: string, p: nat)
    requires p <= |x| && forall k :: p <= k < |x| ==> x[k] != '"'
    ensures QuoteIndex(x, p) == |x|
    decreases |x| - p
  {
    if p < |x| {
      QuoteFree(x, p + 1);
    }
  }

  /** The quote search stops at the first quote. */
  lemma {:induction false} QuoteIndexAt(s: seq<char>, p: nat, i: nat)
    requires p <= i <= |s| && (i < |s| ==> s[i] == '"')
    requires forall k :: p <= k < i ==> s[k] != '"'
    ensures QuoteIndex(s, p) == i
    decreases i - p
  {
    if p < i {
      QuoteIndexAt(s, p + 1, i);
    }
  }

  /** The white-space scan stops at the first character that is not white space. */
  lemma {:induction false} SkipIndexAt(s: seq<char>, p: nat, i: nat)
    requires p <= i <= |s| && (i < |s| ==> !IsSpace(s[i]))
    requires forall k :: p <= k < i ==> IsSpace(s[k])
    ensures SkipIndex(s, p) == i
    decreases i - p
  {
    if p < i {
      SkipIndexAt(s, p + 1, i);
    }
  }

  /** A word ends at the first white space. */
  lemma {:induction false} TokenEndAt(s: seq<char>, p: nat, i: nat)
    requires p <= i <= |s| && (i < |s| ==> IsSpace(s[i]))
    requires forall k :: p <= k < i ==> !IsSpace(s[k])
    ensures TokenEnd(s, p) == i
    decreases i - p
  {
    if p < i {
      TokenEndAt(s, p + 1, i);
    }
  }

  /** `null`, `true` and `false` are not read back: the parser wants the leading letter
      twice. */
  lemma LiteralsDoNotRoundTrip(b: bool, fmt: Formatter, scan: Scanner)
    ensures Parse(Format(Null, fmt), scan) == Err(InvalidNull)
    ensures Parse(Format(Bool(b), fmt), scan) == Err(InvalidBool)
  {
    NullIsRejected(scan);
    var s := Format(Bool(b), fmt);
    assert s == if b then "true" else "false";
    ValueAtChar(s, Cursor(0, false), scan);
    DispatchLiteral(s, 1, scan);
  }

  /** The empty list and the empty dictionary are read back. */
  lemma EmptyContainersRoundTrip(fmt: Formatter, scan: Scanner)
    ensures Parse(Format(List([]), fmt), scan) == Ok(List([]))
    ensures Parse(Format(Dict([]), fmt), scan) == Ok(Dict([]))
  {
    var l := Format(List([]), fmt);
    assert l == "[]";
    ValueAtChar(l, Cursor(0, false), scan);
    assert SkipIndex(l, 1) == 1;
    DispatchList(l, 1, scan);
    var d := Format(Dict([]), fmt);
    assert d == "{}";
    ValueAtChar(d, Cursor(0, false), scan);
    assert SkipIndex(d, 1) == 1;
    DispatchDictionary(d, 1, scan);
  }

  /** A list holding one empty list or one empty dictionary is read back. */
  lemma NestedEmptyContainersRoundTrip(fmt: Formatter, scan: Scanner)
    ensures Parse(Format(List([List([])]), fmt), scan) == Ok(List([List([])]))
    ensures Parse(Format(List([Dict([])]), fmt), scan) == Ok(List([Dict([])]))
  {
    SingletonListText(List([]), fmt);
    SingletonListText(Dict([]), fmt);
    assert Format(List([]), fmt) == "[]" && Format(Dict([]), fmt) == "{}";
    assert Format(List([List([])]), fmt) == "[[]]";
    assert Format(List([Dict([])]), fmt) == "[{}]";
    EmptyElementList("[[]]", List([]), scan);
    EmptyElementList("[{}]", Dict([]), scan);
  }

  /** `[[]]` and `[{}]` are read as a list holding the empty container. */
  lemma EmptyElementList(s: seq<char>, v: Json, scan: Scanner)
    requires (s == "[[]]" && v == List([])) || (s == "[{}]" && v == Dict([]))
    ensures Parse(s, scan) == Ok(List([v]))
  {
    assert |s| == 4 && s[0] == '[' && !IsSpace(s[1]) && s[1] != ']';
    OpenList(s, scan);
    assert SkipIndex(s, 2) == 2 && SkipIndex(s, 3) == 3;
    assert ParseValue(s, Cursor(1, false), scan) == Ok((v, Cursor(3, false))) by {
      ValueAtChar(s, Cursor(1, false), scan);
      if s[1] == '[' {
        DispatchList(s, 2, scan);
      } else {
        DispatchDictionary(s, 2, scan);
      }
    }
    ItemSeparator(s, Cursor(1, false), [], s[1], scan, v, Cursor(3, false), 3);
    assert [] + [v] == [v];
  }

  /** A number that starts with a digit or `-` is read back when the scanner inverts the
      formatter. */
  lemma NumberRoundTrip(n: Number, fmt: Formatter, scan: Scanner)
    requires fmt(n) != [] && (IsDigit(fmt(n)[0]) || fmt(n)[0] == '-')
    requires ReadsBack(scan, fmt, n, "")
    ensures Parse(Format(Num(n), fmt), scan) == Ok(Num(n))
  {
    var s := Format(Num(n), fmt);
    assert s == fmt(n) + "";
    NumberValueAt(s, 0, scan);
    assert s[0..] == s;
  }

  /** A one-number list is read back when the scanner stops at the closing bracket. */
  lemma NumberListRoundTrip(n: Number, fmt: Formatter, scan: Scanner)
    requires fmt(n) != [] && (IsDigit(fmt(n)[0]) || fmt(n)[0] == '-')
    requires ReadsBack(scan, fmt, n, "]")
    ensures Parse(Format(List([Num(n)]), fmt), scan) == Ok(List([Num(n)]))
  {
    SingletonListText(Num(n), fmt);
    var t := fmt(n);
    var s := "[" + t + "]";
    var m := |t| + 1;
    BracketedLayout(t, s);
    OpenList(s, scan);
    assert ParseValue(s, Cursor(1, false), scan) == Ok((Num(n), Cursor(m, false))) by {
      NumberValueAt(s, 1, scan);
    }
    ItemSeparator(s, Cursor(1, false), [], t[0], scan, Num(n), Cursor(m, false), m);
    assert [] + [Num(n)] == [Num(n)];
  }

  /** Layout helper: where things sit in `[t]`. */
  lemma BracketedLayout(t: string, s: string)
    requires t != [] && s == "[" + t + "]"
    ensures |s| == |t| + 2 && s[0] == '[' && s[1] == t[0] && s[1..] == t + "]" && s[|t| + 1] == ']'
    ensures SkipIndex(s, |t| + 1) == |t| + 1
  {
  }

  /** A one-element list is written as its element between brackets. */
  lemma SingletonListText(v: Json, fmt: Formatter)
    ensures Format(List([v]), fmt) == "[" + Format(v, fmt) + "]"
  {
    assert seq(1, i requires 0 <= i < 1 => Format([v][i], fmt)) == [Format(v, fmt)];
  }

  /** A list holding one string is not read back: the white-space loop after the string
      swallows the closing bracket, and the list loop then finds no separator. */
  lemma StringListDoesNotRoundTrip(x: string, fmt: Formatter, scan: Scanner)
    requires forall k :: 0 <= k < |x| ==> x[k] != '"'
    ensures Parse(Format(List([Str(x)]), fmt), scan) == Err(InvalidArray)
  {
    SingletonListText(Str(x), fmt);
    var s := "[" + ("\"" + x + "\"") + "]";
    assert s[1] == '"';
    OpenList(s, scan);
    StringElementEndsInput(s, x, scan);
    ItemAtEnd(s, Cursor(1, false), [], '"', scan, Str(x));
  }

  /** In `["x"]`, the string element takes the whole rest of the input: the white-space
      loop after its closing quote consumes the `]`. */
  lemma StringElementEndsInput(s: seq<char>, x: string, scan: Scanner)
    requires forall k :: 0 <= k < |x| ==> x[k] != '"'
    requires s == "[" + ("\"" + x + "\"") + "]"
    ensures ParseValue(s, Cursor(1, false), scan) == Ok((Str(x), Cursor(|s|, false)))
  {
    var q := |x| + 2;
    assert s[q] == '"' && s[q + 1] == ']' && q + 2 == |s|;
    assert forall k :: 2 <= k < q ==> s[k] == x[k - 2];
    QuoteIndexAt(s, 2, q);
    assert s[2..q] == x;
    StringValueAt(s, 1, q, scan);
  }

  /** No list holding one string is read back. With no quote in the string the list is
      `InvalidArray`; otherwise its first element is the string cut at its first quote. */
  lemma StringListNeverRoundTrips(x: string, fmt: Formatter, scan: Scanner)
    ensures Parse(Format(List([Str(x)]), fmt), scan) != Ok(List([Str(x)]))
  {
    if forall k :: 0 <= k < |x| ==> x[k] != '"' {
      StringListDoesNotRoundTrip(x, fmt, scan);
    } else {
      SingletonListText(Str(x), fmt);
      var s := "[" + ("\"" + x + "\"") + "]";
      assert 2 <= |s| && s[0] == '[' && s[1] == '"';
      ListFirstElement(s, scan);
      StringElementCut(s, x, scan);
      assert |x[..QuoteIndex(x, 0)]| < |x|;
    }
  }

  /** In `["x"]`, the string element is `x` up to its first quote. */
  lemma StringElementCut(s: seq<char>, x: string, scan: Scanner)
    requires s == "[" + ("\"" + x + "\"") + "]"
    ensures ParseValue(s, Cursor(1, false), scan).Ok?
    ensures ParseValue(s, Cursor(1, false), scan).value.0 == Str(x[..QuoteIndex(x, 0)])
  {
    ListQuoteLayout(s, x);
    QuotedValue(s, 1, scan);
  }

  /** Layout helper: in `["x"]` the quote search from the string's first character stops at
      the first quote of `x`, or at the closing quote. */
  lemma ListQuoteLayout(s: seq<char>, x: string)
    requires s == "[" + ("\"" + x + "\"") + "]"
    ensures 1 < |s| && s[1] == '"'
    ensures QuoteIndex(s, 2) == QuoteIndex(x, 0) + 2 < |s|
    ensures s[2..QuoteIndex(s, 2)] == x[..QuoteIndex(x, 0)]
  {
    var q := QuoteIndex(x, 0) + 2;
    assert q < |s| && s[q] == '"';
    assert forall k :: 2 <= k < q ==> s[k] == x[k - 2];
    QuoteIndexAt(s, 2, q);
    assert s[2..q] == x[..q - 2];
  }

  /** The first text `Join` writes is its first part. */
  lemma JoinStartsWithFirst(parts: seq<string>, sep: string)
    requires parts != []
    ensures |parts[0]| <= |Join(parts, sep)| && Join(parts, sep)[..|parts[0]|] == parts[0]
  {
  }

  /** What the serializer writes first for every kind of value. */
  lemma FormatLead(v: Json, fmt: Formatter)
    requires PlainNumbers(fmt)
    ensures Format(v, fmt) != [] && !IsSpace(Format(v, fmt)[0]) && Format(v, fmt)[0] != ':'
  {
    match v
    case Num(n) =>
      assert fmt(n) != [] && (IsDigit(fmt(n)[0]) || fmt(n)[0] in {'-', 'i', 'n'});
    case _ =>
  }

  /** No non-empty dictionary is read back: its first key is written quoted and followed
      by `": "`, so the word read as the key runs up to the space after the colon, and the
      parser then finds the value where it expects `:`. */
  lemma DictionaryDoesNotRoundTrip(entries: seq<(string, Json)>, fmt: Formatter, scan: Scanner)
    requires entries != [] && PlainNumbers(fmt)
    requires forall k :: 0 <= k < |entries[0].0| ==> !IsSpace(entries[0].0[k])
    ensures Parse(Format(Dict(entries), fmt), scan) == Err(InvalidObject)
  {
    DictionaryLead(entries, fmt);
    QuotedKeyIsNoKey(Format(Dict(entries), fmt), entries[0].0, scan);
  }

  /** No non-empty dictionary is read back, whatever its keys and however numbers are
      written: the first key the parser reads is the word at the opening quote, which is
      never the first key written. */
  lemma DictionaryNeverRoundTrips(entries: seq<(string, Json)>, fmt: Formatter, scan: Scanner)
    requires entries != []
    ensures Parse(Format(Dict(entries), fmt), scan) != Ok(Dict(entries))
  {
    var s := Format(Dict(entries), fmt);
    DictionaryKeyWord(entries, fmt);
    OpenDictionary(s, scan);
    EntriesFirstKey(s, Cursor(1, false), '"', scan);
  }

  /** The word at the opening quote of a dictionary's text is never its first key: it holds
      the quote, and either stops at white space inside the key or runs on past the closing
      quote and the colon. */
  lemma DictionaryKeyWord(entries: seq<(string, Json)>, fmt: Formatter)
    requires entries != []
    ensures var s := Format(Dict(entries), fmt);
      && 2 <= |s| && s[0] == '{' && s[1] == '"'
      && ReadWord(s, Cursor(1, false)).0 != entries[0].0
  {
    var key := entries[0].0;
    var p0 := EntryText(key, Format(entries[0].1, fmt));
    DictionaryText(entries, fmt);
    var s := Format(Dict(entries), fmt);
    assert s[1..|key| + 4] == p0[..|key| + 3] == "\"" + key + "\":";
    KeyWordAt(s, key);
  }

  /** Stream helper: at a quoted key followed by a colon, the word read from the opening
      quote is not the key. */
  lemma KeyWordAt(s: seq<char>, key: string)
    requires |key| + 4 <= |s| && s[1..|key| + 4] == "\"" + key + "\":"
    ensures ReadWord(s, Cursor(1, false)).0 != key
  {
    var e := |key| + 4;
    assert s[1] == '"' && s[e - 2] == '"' && s[e - 1] == ':';
    assert forall k :: 2 <= k < e - 2 ==> s[k] == s[1..e][k - 1] == key[k - 2];
    SkipIndexAt(s, 1, 1);
    var w := ReadWord(s, Cursor(1, false)).0;
    if k :| 0 <= k < |key| && IsSpace(key[k]) {
      assert k >= |w| || w[k] != key[k];
    } else {
      var t := TokenEnd(s, 1);
      assert forall k :: 1 <= k < e - 1 ==> !IsSpace(s[k]);
      assert e - 1 <= t;
      assert w == s[1..t];
    }
  }

  /** A non-empty dictionary's text starts with `{"key": ` and then a character that is
      neither white space nor `:`. */
  lemma DictionaryLead(entries: seq<(string, Json)>, fmt: Formatter)
    requires entries != [] && PlainNumbers(fmt)
    ensures var s := Format(Dict(entries), fmt);
      var key := entries[0].0;
      && |key| + 6 <= |s| && s[0] == '{' && s[1..|key| + 5] == "\"" + key + "\": "
      && !IsSpace(s[|key| + 5]) && s[|key| + 5] != ':'
  {
    var key := entries[0].0;
    var first := Format(entries[0].1, fmt);
    FormatLead(entries[0].1, fmt);
    DictionaryText(entries, fmt);
    var s := Format(Dict(entries), fmt);
    var e := |key| + 4;
    assert s[1..e + 2] == "\"" + key + "\": " + [first[0]];
  }

  /** A dictionary is written as `{`, its first entry, and the rest. */
  lemma DictionaryText(entries: seq<(string, Json)>, fmt: Formatter)
    requires entries != []
    ensures var p0 := EntryText(entries[0].0, Format(entries[0].1, fmt));
      var s := Format(Dict(entries), fmt);
      |p0| + 2 <= |s| && s[0] == '{' && s[1..|p0| + 1] == p0
  {
    var parts := seq(|entries|, i requires 0 <= i < |entries| =>
                       EntryText(entries[i].0, Format(entries[i].1, fmt)));
    JoinStartsWithFirst(parts, ", ");
    assert Format(Dict(entries), fmt) == "{" + Join(parts, ", ") + "}";
  }

  /** Input `{"key": x...` with a key free of white space and `x` neither white space nor
      `:` is `InvalidObject`. */
  lemma QuotedKeyIsNoKey(s: seq<char>, key: string, scan: Scanner)
    requires forall k :: 0 <= k < |key| ==> !IsSpace(key[k])
    requires |key| + 6 <= |s| && s[0] == '{'
    requires s[1..|key| + 5] == "\"" + key + "\": "
    requires !IsSpace(s[|key| + 5]) && s[|key| + 5] != ':'
    ensures Parse(s, scan) == Err(InvalidObject)
  {
    var e := |key| + 4;
    assert TokenEnd(s, 1) == e && SkipIndex(s, e) == e + 1 by {
      assert s[1] == '"' && s[e] == ' ' && s[e - 1] == ':' && s[e - 2] == '"';
      assert forall k :: 2 <= k < e - 2 ==> s[k] == key[k - 2];
      TokenEndAt(s, 1, e);
      SkipIndexAt(s, e, e + 1);
    }
    assert ParseValue(s, Cursor(0, false), scan) == ParseEntries(s, Cursor(1, false), [], '"', scan) by {
      OpenDictionary(s, scan);
    }
    EntryNeedsColon(s, Cursor(1, false), [], '"', scan);
  }
}
