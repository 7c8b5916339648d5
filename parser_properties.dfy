/** What the parser does, stated over all inputs: where each white-space loop stops, how
    the first character selects a branch, what each branch accepts, how the list and
    dictionary loops continue, and that every dictionary it builds has distinct keys. */
module ParserProperties {
  import opened Wrappers
  import opened JsonValues
  import opened CharStreams
  import opened JsonParser

  /** A white-space loop on a good stream stops just after the first character at or after
      the cursor that is not white space; when there is none it fails at the end of input,
      leaving `ch` as the last white space read (or unchanged if it read nothing). */
  lemma {:induction false} SkipWhitespaceFinds(s: seq<char>, c: Cursor, ch: char)
    requires c.pos <= |s| && !c.failed
    ensures var i := SkipIndex(s, c.pos);
      SkipWhitespace(s, c, ch) ==
        if i < |s| then (s[i], Cursor(i + 1, false))
        else (if i == c.pos then ch else s[i - 1], Cursor(|s|, true))
    decreases |s| - c.pos
  {
    if c.pos < |s| && IsSpace(s[c.pos]) {
      SkipWhitespaceFinds(s, Cursor(c.pos + 1, false), s[c.pos]);
    }
  }

  /** The first position at or after `p` that holds a double quote (or the end). */
  function QuoteIndex(s: seq<char>, p: nat): (i: nat)
    requires p <= |s|
    ensures p <= i <= |s|
    ensures i < |s| ==> s[i] == '"'
    ensures forall k :: p <= k < i ==> s[k] != '"'
    decreases |s| - p
  {
    if p == |s| || s[p] == '"' then p else QuoteIndex(s, p + 1)
  }

  /** The string loop takes every character up to the next quote, verbatim, and consumes the
      quote; with no closing quote it takes the rest of the input. */
  lemma {:induction false} ReadQuotedFinds(s: seq<char>, p: nat, acc: string)
    requires p <= |s|
    ensures var q := QuoteIndex(s, p);
      ReadQuoted(s, Cursor(p, false), acc) ==
        (acc + s[p..q], if q < |s| then Cursor(q + 1, false) else Cursor(|s|, true))
    decreases |s| - p
  {
    var q := QuoteIndex(s, p);
    if p < |s| {
      assert GetChar(s, Cursor(p, false)) == (Some(s[p]), Cursor(p + 1, false));
    } else {
      assert GetChar(s, Cursor(p, false)) == (None, Cursor(p, true));
    }
    if p < |s| && s[p] != '"' {
      assert ReadQuoted(s, Cursor(p, false), acc) == ReadQuoted(s, Cursor(p + 1, false), acc + [s[p]]);
      assert q == QuoteIndex(s, p + 1);
      ReadQuotedFinds(s, p + 1, acc + [s[p]]);
      assert acc + [s[p]] + s[p + 1..q] == acc + s[p..q];
    } else if p == |s| {
      assert ReadQuoted(s, Cursor(p, false), acc) == (acc, Cursor(p, true));
      assert acc + s[p..q] == acc;
    } else {
      assert ReadQuoted(s, Cursor(p, false), acc) == (acc, Cursor(p + 1, false));
      assert acc + s[p..q] == acc;
    }
  }

  /** Reading a value skips white space and dispatches on the first other character; with
      nothing left to read it reports `EndOfInput`, and on white space alone the branch
      test sees a white-space character and fails. */
  lemma ParseValueStart(s: seq<char>, c: Cursor, scan: Scanner)
    requires c.pos <= |s| && !c.failed
    ensures c.pos == |s| ==> ParseValue(s, c, scan) == Err(EndOfInput)
    ensures var i := SkipIndex(s, c.pos);
      && (i < |s| ==> ParseValue(s, c, scan) == Dispatch(s, Cursor(i + 1, false), s[i], scan))
      && (c.pos < i == |s| ==> ParseValue(s, c, scan) == Err(UnexpectedCharacter))
  {
    var i := SkipIndex(s, c.pos);
    if c.pos == |s| {
      assert GetChar(s, c).0 == None;
    } else if i < |s| {
      ValueSkipsTo(s, c, scan, i);
    } else if c.pos < i {
      ValueOfBlank(s, c, scan);
    }
  }

  /** When the white-space scan from the cursor stops at `i`, the read dispatches on `s[i]`. */
  lemma ValueSkipsTo(s: seq<char>, c: Cursor, scan: Scanner, i: nat)
    requires c.pos < |s| && !c.failed && i == SkipIndex(s, c.pos) && i < |s|
    ensures ParseValue(s, c, scan) == Dispatch(s, Cursor(i + 1, false), s[i], scan)
  {
    if IsSpace(s[c.pos]) {
      SpaceRunFinds(s, c.pos, i);
      ValueAfterSpace(s, c, scan, s[i], Cursor(i + 1, false));
    } else {
      assert i == c.pos;
      ValueAtChar(s, c, scan);
    }
  }

  /** Input that is all white space from the cursor on selects no branch. */
  lemma ValueOfBlank(s: seq<char>, c: Cursor, scan: Scanner)
    requires c.pos < |s| && !c.failed && SkipIndex(s, c.pos) == |s|
    ensures ParseValue(s, c, scan) == Err(UnexpectedCharacter)
  {
    assert IsSpace(s[c.pos]);
    SpaceRunFinds(s, c.pos, |s|);
    var r := SkipWhitespace(s, Cursor(c.pos + 1, false), s[c.pos]);
    ValueAfterSpace(s, c, scan, r.0, r.1);
  }

  /** The white-space loop entered after reading the white space at `p` stops after the
      first character that is not white space; with none, it fails holding white space. */
  lemma SpaceRunFinds(s: seq<char>, p: nat, i: nat)
    requires p < |s| && IsSpace(s[p]) && i == SkipIndex(s, p)
    ensures var r := SkipWhitespace(s, Cursor(p + 1, false), s[p]);
      && (i < |s| ==> r == (s[i], Cursor(i + 1, false)))
      && (i == |s| ==> IsSpace(r.0) && r.1 == Cursor(|s|, true))
  {
    assert i == SkipIndex(s, p + 1);
    SkipWhitespaceFinds(s, Cursor(p + 1, false), s[p]);
  }

  /** A value read that starts at a character other than white space dispatches on it. */
  lemma ValueAtChar(s: seq<char>, c: Cursor, scan: Scanner)
    requires c.pos < |s| && !c.failed && !IsSpace(s[c.pos])
    ensures ParseValue(s, c, scan) == Dispatch(s, Cursor(c.pos + 1, false), s[c.pos], scan)
  {
    assert GetChar(s, c) == (Some(s[c.pos]), Cursor(c.pos + 1, false));
  }

  /** A value read that starts at white space runs the white-space loop, ending with `ch`
      at `c2`, then dispatches on `ch`; a white-space character selects no branch. */
  lemma ValueAfterSpace(s: seq<char>, c: Cursor, scan: Scanner, ch: char, c2: Cursor)
    requires c.pos < |s| && !c.failed && IsSpace(s[c.pos])
    requires (ch, c2) == SkipWhitespace(s, Cursor(c.pos + 1, false), s[c.pos])
    ensures ParseValue(s, c, scan) == Dispatch(s, c2, ch, scan)
    ensures IsSpace(ch) ==> ParseValue(s, c, scan) == Err(UnexpectedCharacter)
  {
    assert GetChar(s, c) == (Some(s[c.pos]), Cursor(c.pos + 1, false));
  }

  /** A literal is accepted exactly when the next |word| characters spell it. */
  lemma LiteralAccepts(s: seq<char>, p: nat, ch: char, word: string, v: Json, err: JsonError)
    requires p <= |s| && |word| > 0
    ensures var r := ParseLiteral(s, Cursor(p, false), ch, word, v, err);
      && (r.Ok? <==> p + |word| <= |s| && s[p..p + |word|] == word)
      && (r.Ok? ==> r.value == (v, SkipWhitespace(s, Cursor(p + |word|, false), ch).1))
      && (r.Err? ==> r.error == err)
  {
  }

  /** After `n`, `t` or `f` the next four, four or five characters must spell the whole
      literal (the leading letter is read twice). */
  lemma DispatchLiteral(s: seq<char>, p: nat, scan: Scanner)
    requires p <= |s|
    ensures Dispatch(s, Cursor(p, false), 'n', scan).Ok? <==> p + 4 <= |s| && s[p..p + 4] == "null"
    ensures Dispatch(s, Cursor(p, false), 't', scan).Ok? <==> p + 4 <= |s| && s[p..p + 4] == "true"
    ensures Dispatch(s, Cursor(p, false), 'f', scan).Ok? <==> p + 5 <= |s| && s[p..p + 5] == "false"
    ensures Dispatch(s, Cursor(p, false), 'n', scan).Ok? ==> Dispatch(s, Cursor(p, false), 'n', scan).value.0 == Null
    ensures Dispatch(s, Cursor(p, false), 't', scan).Ok? ==> Dispatch(s, Cursor(p, false), 't', scan).value.0 == Bool(true)
    ensures Dispatch(s, Cursor(p, false), 'f', scan).Ok? ==> Dispatch(s, Cursor(p, false), 'f', scan).value.0 == Bool(false)
  {
    LiteralAccepts(s, p, 'n', "null", Null, InvalidNull);
    LiteralAccepts(s, p, 't', "true", Bool(true), InvalidBool);
    LiteralAccepts(s, p, 'f', "false", Bool(false), InvalidBool);
  }

  /** A string is every character up to the next quote, taken verbatim; the quote and the
      first character after any white space that follows are consumed. An unterminated
      string takes the rest of the input and leaves the stream failed. */
  lemma DispatchString(s: seq<char>, p: nat, scan: Scanner)
    requires p <= |s|
    ensures var q := QuoteIndex(s, p);
      Dispatch(s, Cursor(p, false), '"', scan) ==
        Ok((Str(s[p..q]),
            if q < |s| then SkipWhitespace(s, Cursor(q + 1, false), '"').1 else Cursor(|s|, true)))
  {
    ReadQuotedFinds(s, p, "");
    assert "" + s[p..QuoteIndex(s, p)] == s[p..QuoteIndex(s, p)];
  }

  /** A digit or `-` is put back and the number scanner reads from it. */
  lemma DispatchNumber(s: seq<char>, p: nat, ch: char, scan: Scanner)
    requires 0 < p <= |s| && s[p - 1] == ch && (IsDigit(ch) || ch == '-')
    ensures Dispatch(s, Cursor(p, false), ch, scan) ==
      match scan(s[p - 1..])
      case None => Err(InvalidNumber)
      case Some((n, k)) => Ok((Num(n), Cursor(p - 1 + k, false)))
  {
  }

  /** Any character that starts no value is an error. */
  lemma DispatchOther(s: seq<char>, c: Cursor, ch: char, scan: Scanner)
    requires c.pos <= |s|
    requires ch !in {'n', 't', 'f', '"', '-', '[', '{'} && !IsDigit(ch)
    ensures Dispatch(s, c, ch, scan) == Err(UnexpectedCharacter)
  {
  }

  /** After `[`: a `]` (after white space) is the empty list; any other character is put
      back and starts the first element; the end of input is `EndOfInput`. */
  lemma DispatchList(s: seq<char>, p: nat, scan: Scanner)
    requires p <= |s|
    ensures var j := SkipIndex(s, p);
      && (j < |s| && s[j] == ']' ==> Dispatch(s, Cursor(p, false), '[', scan) == Ok((List([]), Cursor(j + 1, false))))
      && (j < |s| && s[j] != ']' ==>
            Dispatch(s, Cursor(p, false), '[', scan) == ParseItems(s, Cursor(j, false), [], s[j], scan))
      && (j == |s| ==> Dispatch(s, Cursor(p, false), '[', scan) == Err(EndOfInput))
  {
    var j := SkipIndex(s, p);
    var r := SkipWhitespace(s, Cursor(p, false), '[');
    OpenerFinds(s, p, '[', j);
    assert Dispatch(s, Cursor(p, false), '[', scan) ==
      if r.0 == ']' then Ok((List([]), r.1)) else ParseItems(s, PutBackChar(s, r.1, r.0), [], r.0, scan);
    if j == |s| {
      ItemsOnFailed(s, r.1, [], r.0, scan);
    }
  }

  /** The white-space loop after an opening bracket or brace stops after the first
      character that is not white space, and `putback` then returns to it; with none, the
      stream fails and `putback` leaves it failed. */
  lemma OpenerFinds(s: seq<char>, p: nat, open: char, j: nat)
    requires p <= |s| && j == SkipIndex(s, p) && !IsSpace(open)
    ensures var r := SkipWhitespace(s, Cursor(p, false), open);
      && (j < |s| ==> r == (s[j], Cursor(j + 1, false)) && PutBackChar(s, r.1, r.0) == Cursor(j, false))
      && (j == |s| ==> r.1 == Cursor(|s|, true) && (r.0 == open || IsSpace(r.0))
                       && PutBackChar(s, r.1, r.0) == r.1)
  {
    SkipWhitespaceFinds(s, Cursor(p, false), open);
  }

  /** A list loop on a failed stream reads no element. */
  lemma ItemsOnFailed(s: seq<char>, c: Cursor, items: seq<Json>, ch: char, scan: Scanner)
    requires c.pos <= |s| && c.failed
    ensures ParseItems(s, c, items, ch, scan) == Err(EndOfInput)
  {
    assert GetChar(s, c).0 == None;
    assert ParseValue(s, c, scan) == Err(EndOfInput);
  }

  /** A dictionary loop on a failed stream reads an empty key and finds no `:` (`ch` is the
      frame's stale character). */
  lemma EntriesOnFailed(s: seq<char>, c: Cursor, entries: seq<(string, Json)>, ch: char, scan: Scanner)
    requires c.pos <= |s| && c.failed && ch != ':'
    ensures ParseEntries(s, c, entries, ch, scan) == Err(InvalidObject)
  {
    assert ReadWord(s, c) == ("", c);
    assert GetChar(s, c).0 == None;
    assert SkipWhitespace(s, c, ch) == (ch, c);
  }

  /** After `{`: a `}` (after white space) is the empty dictionary; any other character is
      put back and starts the first key; the end of input is `InvalidObject`. */
  lemma DispatchDictionary(s: seq<char>, p: nat, scan: Scanner)
    requires p <= |s|
    ensures var j := SkipIndex(s, p);
      && (j < |s| && s[j] == '}' ==> Dispatch(s, Cursor(p, false), '{', scan) == Ok((Dict([]), Cursor(j + 1, false))))
      && (j < |s| && s[j] != '}' ==>
            Dispatch(s, Cursor(p, false), '{', scan) == ParseEntries(s, Cursor(j, false), [], s[j], scan))
      && (j == |s| ==> Dispatch(s, Cursor(p, false), '{', scan) == Err(InvalidObject))
  {
    var j := SkipIndex(s, p);
    var r := SkipWhitespace(s, Cursor(p, false), '{');
    OpenerFinds(s, p, '{', j);
    assert Dispatch(s, Cursor(p, false), '{', scan) ==
      if r.0 == '}' then Ok((Dict([]), r.1)) else ParseEntries(s, PutBackChar(s, r.1, r.0), [], r.0, scan);
    if j == |s| {
      EntriesOnFailed(s, r.1, [], r.0, scan);
    }
  }

  /** After a list element, the separator loop stops after the first character `s[j]` that
      is not white space: `]` closes the list; `,` continues it, but the white-space loop
      after the comma also swallows the next character that is not white space (see
      `ItemContinues`); anything else is `InvalidArray`. */
  lemma ItemSeparator(s: seq<char>, c: Cursor, items: seq<Json>, ch: char, scan: Scanner,
                      item: Json, c1: Cursor, j: nat)
    requires c.pos <= |s| && ParseValue(s, c, scan) == Ok((item, c1)) && !c1.failed
    requires j == SkipIndex(s, c1.pos) && j < |s|
    ensures ParseItems(s, c, items, ch, scan) ==
      if s[j] == ',' then
        ParseItems(s, SkipWhitespace(s, Cursor(j + 1, false), ',').1, items + [item],
                   SkipWhitespace(s, Cursor(j + 1, false), ',').0, scan)
      else if s[j] == ']' then Ok((List(items + [item]), Cursor(j + 1, false)))
      else Err(InvalidArray)
  {
    SeparatorAt(s, c1, ch, j);
    ItemStep(s, c, items, ch, scan, item, c1, s[j], Cursor(j + 1, false));
  }

  /** Stream helper: the white-space loop stops just after the first character at or after
      the cursor that is not white space. */
  lemma SeparatorAt(s: seq<char>, c: Cursor, ch: char, j: nat)
    requires c.pos <= |s| && !c.failed && j == SkipIndex(s, c.pos) && j < |s|
    ensures SkipWhitespace(s, c, ch) == (s[j], Cursor(j + 1, false))
  {
    SkipWhitespaceFinds(s, c, ch);
  }

  /** One turn of the list loop after an element, with the separator loop's result named. */
  lemma ItemStep(s: seq<char>, c: Cursor, items: seq<Json>, ch: char, scan: Scanner, item: Json, c1: Cursor,
                 sch: char, sc: Cursor)
    requires c.pos <= |s| && ParseValue(s, c, scan) == Ok((item, c1))
    requires (sch, sc) == SkipWhitespace(s, c1, ch)
    ensures ParseItems(s, c, items, ch, scan) ==
      if sch == ',' then
        ParseItems(s, SkipWhitespace(s, sc, ',').1, items + [item], SkipWhitespace(s, sc, ',').0, scan)
      else if sch == ']' then Ok((List(items + [item]), sc))
      else Err(InvalidArray)
  {
  }

  /** The loop after a comma at `j` goes on from the character after the next one that is
      not white space, or reports `EndOfInput` when there is none. */
  lemma ItemContinues(s: seq<char>, j: nat, k: nat, items: seq<Json>, scan: Scanner)
    requires j < |s| && s[j] == ',' && k == SkipIndex(s, j + 1)
    ensures var next := SkipWhitespace(s, Cursor(j + 1, false), ',');
      ParseItems(s, next.1, items, next.0, scan) ==
        if k < |s| then ParseItems(s, Cursor(k + 1, false), items, s[k], scan) else Err(EndOfInput)
  {
    SkipWhitespaceFinds(s, Cursor(j + 1, false), ',');
    if k == |s| {
      var next := SkipWhitespace(s, Cursor(j + 1, false), ',');
      assert next.1 == Cursor(|s|, true);
      assert ParseValue(s, next.1, scan) == Err(EndOfInput);
    }
  }

  /** When an element ends the input, the separator read fails and the list frame's `ch`
      (the character that began the element, or the one the last comma loop swallowed)
      decides: unless it is `,` or `]` the list is `InvalidArray`. */
  lemma ItemAtEnd(s: seq<char>, c: Cursor, items: seq<Json>, ch: char, scan: Scanner, item: Json)
    requires c.pos <= |s| && ParseValue(s, c, scan) == Ok((item, Cursor(|s|, false)))
    ensures ch == ']' ==> ParseItems(s, c, items, ch, scan) == Ok((List(items + [item]), Cursor(|s|, true)))
    ensures ch != ']' && ch != ',' ==> ParseItems(s, c, items, ch, scan) == Err(InvalidArray)
  {
    assert SkipWhitespace(s, Cursor(|s|, false), ch) == (ch, Cursor(|s|, true));
  }

  /** A dictionary key is the next word; it must be followed, after white space, by `:`. */
  lemma {:induction false} EntryNeedsColon(s: seq<char>, c: Cursor, entries: seq<(string, Json)>, ch: char,
                                           scan: Scanner)
    requires c.pos <= |s| && !c.failed
    ensures var a := SkipIndex(s, c.pos);
      a < |s| ==>
        var b := SkipIndex(s, TokenEnd(s, a));
        b < |s| && s[b] != ':' ==> ParseEntries(s, c, entries, ch, scan) == Err(InvalidObject)
  {
    var a := SkipIndex(s, c.pos);
    if a < |s| {
      var e := TokenEnd(s, a);
      assert ReadWord(s, c) == (s[a..e], Cursor(e, false));
      SkipWhitespaceFinds(s, Cursor(e, false), ch);
    }
  }

  /** After `key :` the white-space loop swallows the value's first character, so the value
      is read from the character after it; a value that fails fails the dictionary. */
  lemma {:induction false} EntryValueFails(s: seq<char>, c: Cursor, entries: seq<(string, Json)>, ch: char,
                                           scan: Scanner, a: nat, e: nat, b: nat, d: nat)
    requires c.pos <= |s| && !c.failed
    requires a == SkipIndex(s, c.pos) && a < |s| && e == TokenEnd(s, a)
    requires b == SkipIndex(s, e) && b < |s| && s[b] == ':'
    requires d == SkipIndex(s, b + 1) && d < |s|
    requires ParseValue(s, Cursor(d + 1, false), scan).Err?
    ensures ParseEntries(s, c, entries, ch, scan) == Err(ParseValue(s, Cursor(d + 1, false), scan).error)
  {
    EntryPrefix(s, c, ch, a, e, b, d);
    EntryStep(s, c, entries, ch, scan);
  }

  /** Once the value after `key :` is read, the entry is stored as `d[key] = value` does and
      a `}` after white space closes the dictionary. */
  lemma EntryCloses(s: seq<char>, c: Cursor, entries: seq<(string, Json)>, ch: char,
                                   scan: Scanner, a: nat, e: nat, b: nat, d: nat, v: Json, c4: Cursor)
    requires c.pos <= |s| && !c.failed
    requires a == SkipIndex(s, c.pos) && a < |s| && e == TokenEnd(s, a)
    requires b == SkipIndex(s, e) && b < |s| && s[b] == ':'
    requires d == SkipIndex(s, b + 1) && d < |s|
    requires ParseValue(s, Cursor(d + 1, false), scan) == Ok((v, c4)) && !c4.failed
    requires SkipIndex(s, c4.pos) < |s| && s[SkipIndex(s, c4.pos)] == '}'
    ensures ParseEntries(s, c, entries, ch, scan) ==
      Ok((Dict(SetFirst(entries, s[a..e], v)), Cursor(SkipIndex(s, c4.pos) + 1, false)))
  {
    EntryAfterValue(s, c, entries, ch, scan, a, e, b, d, v, c4);
    SkipWhitespaceFinds(s, c4, s[d]);
  }

  /** A `,` after the stored entry continues the dictionary; its white-space loop swallows
      the next key's first character. */
  lemma EntryContinues(s: seq<char>, c: Cursor, entries: seq<(string, Json)>, ch: char, scan: Scanner,
                       a: nat, e: nat, b: nat, d: nat, v: Json, c4: Cursor, j: nat, k: nat)
    requires c.pos <= |s| && !c.failed
    requires a == SkipIndex(s, c.pos) && a < |s| && e == TokenEnd(s, a)
    requires b == SkipIndex(s, e) && b < |s| && s[b] == ':'
    requires d == SkipIndex(s, b + 1) && d < |s|
    requires ParseValue(s, Cursor(d + 1, false), scan) == Ok((v, c4)) && !c4.failed
    requires j == SkipIndex(s, c4.pos) && j < |s| && s[j] == ','
    requires k == SkipIndex(s, j + 1) && k < |s|
    ensures ParseEntries(s, c, entries, ch, scan) ==
      ParseEntries(s, Cursor(k + 1, false), SetFirst(entries, s[a..e], v), s[k], scan)
  {
    CommaThenNext(s, c4, s[d], j, k);
    EntryAfterValue(s, c, entries, ch, scan, a, e, b, d, v, c4);
  }

  /** Any other character after an entry is `InvalidObject`. */
  lemma EntryBadSeparator(s: seq<char>, c: Cursor, entries: seq<(string, Json)>, ch: char,
                                   scan: Scanner, a: nat, e: nat, b: nat, d: nat, v: Json, c4: Cursor)
    requires c.pos <= |s| && !c.failed
    requires a == SkipIndex(s, c.pos) && a < |s| && e == TokenEnd(s, a)
    requires b == SkipIndex(s, e) && b < |s| && s[b] == ':'
    requires d == SkipIndex(s, b + 1) && d < |s|
    requires ParseValue(s, Cursor(d + 1, false), scan) == Ok((v, c4)) && !c4.failed
    requires SkipIndex(s, c4.pos) < |s| && s[SkipIndex(s, c4.pos)] !in {',', '}'}
    ensures ParseEntries(s, c, entries, ch, scan) == Err(InvalidObject)
  {
    EntryAfterValue(s, c, entries, ch, scan, a, e, b, d, v, c4);
    SkipWhitespaceFinds(s, c4, s[d]);
  }

  /** The two white-space loops around a separating comma. */
  lemma CommaThenNext(s: seq<char>, c: Cursor, ch: char, j: nat, k: nat)
    requires c.pos <= |s| && !c.failed
    requires j == SkipIndex(s, c.pos) && j < |s| && s[j] == ','
    requires k == SkipIndex(s, j + 1) && k < |s|
    ensures SkipWhitespace(s, c, ch) == (',', Cursor(j + 1, false))
    ensures SkipWhitespace(s, Cursor(j + 1, false), ',') == (s[k], Cursor(k + 1, false))
  {
    SkipWhitespaceFinds(s, c, ch);
    SkipWhitespaceFinds(s, Cursor(j + 1, false), ',');
  }

  /** One entry, unfolded up to the character after its value. */
  lemma EntryAfterValue(s: seq<char>, c: Cursor, entries: seq<(string, Json)>, ch: char,
                                   scan: Scanner, a: nat, e: nat, b: nat, d: nat, v: Json, c4: Cursor)
    requires c.pos <= |s| && !c.failed
    requires a == SkipIndex(s, c.pos) && a < |s| && e == TokenEnd(s, a)
    requires b == SkipIndex(s, e) && b < |s| && s[b] == ':'
    requires d == SkipIndex(s, b + 1) && d < |s|
    requires ParseValue(s, Cursor(d + 1, false), scan) == Ok((v, c4)) && !c4.failed
    ensures var updated := SetFirst(entries, s[a..e], v);
      var sep := SkipWhitespace(s, c4, s[d]);
      var next := SkipWhitespace(s, sep.1, ',');
      ParseEntries(s, c, entries, ch, scan) ==
        if sep.0 == ',' then ParseEntries(s, next.1, updated, next.0, scan)
        else if sep.0 == '}' then Ok((Dict(updated), sep.1))
        else Err(InvalidObject)
  {
    EntryPrefix(s, c, ch, a, e, b, d);
    EntryStep(s, c, entries, ch, scan);
  }

  /** The reads of one entry up to its value: the key word, the white space and `:`, and
      the white space and the swallowed character after it. */
  lemma EntryPrefix(s: seq<char>, c: Cursor, ch: char, a: nat, e: nat, b: nat, d: nat)
    requires c.pos <= |s| && !c.failed
    requires a == SkipIndex(s, c.pos) && a < |s| && e == TokenEnd(s, a)
    requires b == SkipIndex(s, e) && b < |s| && s[b] == ':'
    requires d == SkipIndex(s, b + 1) && d < |s|
    ensures ReadWord(s, c) == (s[a..e], Cursor(e, false))
    ensures SkipWhitespace(s, Cursor(e, false), ch) == (':', Cursor(b + 1, false))
    ensures SkipWhitespace(s, Cursor(b + 1, false), ':') == (s[d], Cursor(d + 1, false))
  {
    SkipWhitespaceFinds(s, Cursor(e, false), ch);
    SkipWhitespaceFinds(s, Cursor(b + 1, false), ':');
  }

  /** Every value the parser produces has distinct keys in every dictionary, however often
      the input repeats a key: a repeated key overwrites the earlier entry. */
  lemma {:induction false} ValueWellKeyed(s: seq<char>, c: Cursor, scan: Scanner)
    requires c.pos <= |s|
    ensures ParseValue(s, c, scan).Ok? ==> WellKeyed(ParseValue(s, c, scan).value.0)
    decreases |s| - c.pos, 0
  {
    var (first, c1) := GetChar(s, c);
    if first.Some? {
      var (ch, c2) := if IsSpace(first.value) then SkipWhitespace(s, c1, first.value)
                      else (first.value, c1);
      DispatchWellKeyed(s, c2, ch, scan);
    }
  }

  lemma {:induction false} DispatchWellKeyed(s: seq<char>, c: Cursor, ch: char, scan: Scanner)
    requires c.pos <= |s|
    ensures Dispatch(s, c, ch, scan).Ok? ==> WellKeyed(Dispatch(s, c, ch, scan).value.0)
    decreases |s| - c.pos, 2
  {
    if ch == '[' {
      var (ch1, c1) := SkipWhitespace(s, c, ch);
      if ch1 != ']' {
        ItemsWellKeyed(s, PutBackChar(s, c1, ch1), [], ch1, scan);
      }
    } else if ch == '{' {
      var (ch1, c1) := SkipWhitespace(s, c, ch);
      if ch1 != '}' {
        EntriesWellKeyed(s, PutBackChar(s, c1, ch1), [], ch1, scan);
      }
    }
  }

  lemma {:induction false} ItemsWellKeyed(s: seq<char>, c: Cursor, items: seq<Json>, ch: char, scan: Scanner)
    requires c.pos <= |s| && WellKeyed(List(items))
    ensures ParseItems(s, c, items, ch, scan).Ok? ==> WellKeyed(ParseItems(s, c, items, ch, scan).value.0)
    decreases |s| - c.pos, 1
  {
    ValueWellKeyed(s, c, scan);
    match ParseValue(s, c, scan)
    case Err(_) =>
    case Ok((item, c1)) =>
      var grown := items + [item];
      assert WellKeyed(List(grown)) by {
        assert forall i :: 0 <= i < |grown| ==> grown[i] == (if i < |items| then items[i] else item);
      }
      var (ch1, c2) := SkipWhitespace(s, c1, ch);
      if ch1 == ',' {
        var (ch2, c3) := SkipWhitespace(s, c2, ch1);
        ItemsWellKeyed(s, c3, grown, ch2, scan);
      }
  }

  lemma {:induction false} EntriesWellKeyed(s: seq<char>, c: Cursor, entries: seq<(string, Json)>, ch: char,
                                            scan: Scanner)
    requires c.pos <= |s| && WellKeyed(Dict(entries))
    ensures ParseEntries(s, c, entries, ch, scan).Ok? ==> WellKeyed(ParseEntries(s, c, entries, ch, scan).value.0)
    decreases |s| - c.pos, 1
  {
    EntryStep(s, c, entries, ch, scan);
    var (key, c1) := ReadWord(s, c);
    var (ch1, c2) := SkipWhitespace(s, c1, ch);
    if ch1 == ':' {
      var (ch2, c3) := SkipWhitespace(s, c2, ch1);
      ValueWellKeyed(s, c3, scan);
      match ParseValue(s, c3, scan)
      case Err(_) =>
      case Ok((value, c4)) =>
        SetFirstKeepsWellKeyed(entries, key, value);
        var (ch3, c5) := SkipWhitespace(s, c4, ch2);
        if ch3 == ',' {
          var (ch4, c6) := SkipWhitespace(s, c5, ch3);
          EntriesWellKeyed(s, c6, SetFirst(entries, key, value), ch4, scan);
        }
    }
  }

  /** Reading from the start of the input yields only well-keyed values. */
  lemma ParseWellKeyed(s: seq<char>, scan: Scanner)
    ensures Parse(s, scan).Ok? ==> WellKeyed(Parse(s, scan).value)
  {
    ValueWellKeyed(s, Cursor(0, false), scan);
  }

  /** The dictionary loop never moves a key it has stored: a dictionary it yields starts
      with the first entry it already held. */
  lemma {:induction false} EntriesKeepFirstKey(s: seq<char>, c: Cursor, entries: seq<(string, Json)>, ch: char,
                                               scan: Scanner)
    requires c.pos <= |s| && entries != []
    ensures var r := ParseEntries(s, c, entries, ch, scan);
      r.Ok? ==> r.value.0.entries != [] && r.value.0.entries[0].0 == entries[0].0
    decreases |s| - c.pos
  {
    EntryStep(s, c, entries, ch, scan);
    var (key, c1) := ReadWord(s, c);
    var (ch1, c2) := SkipWhitespace(s, c1, ch);
    if ch1 == ':' {
      var (ch2, c3) := SkipWhitespace(s, c2, ch1);
      match ParseValue(s, c3, scan)
      case Err(_) =>
      case Ok((value, c4)) =>
        var (ch3, c5) := SkipWhitespace(s, c4, ch2);
        if ch3 == ',' {
          var (ch4, c6) := SkipWhitespace(s, c5, ch3);
          EntriesKeepFirstKey(s, c6, SetFirst(entries, key, value), ch4, scan);
        }
    }
  }

  /** A dictionary the loop yields from no entries has as its first key the first word the
      loop read. */
  lemma EntriesFirstKey(s: seq<char>, c: Cursor, ch: char, scan: Scanner)
    requires c.pos <= |s|
    ensures var r := ParseEntries(s, c, [], ch, scan);
      r.Ok? ==> r.value.0.entries != [] && r.value.0.entries[0].0 == ReadWord(s, c).0
  {
    EntryStep(s, c, [], ch, scan);
    var (key, c1) := ReadWord(s, c);
    var (ch1, c2) := SkipWhitespace(s, c1, ch);
    if ch1 == ':' {
      var (ch2, c3) := SkipWhitespace(s, c2, ch1);
      match ParseValue(s, c3, scan)
      case Err(_) =>
      case Ok((value, c4)) =>
        assert SetFirst([], key, value) == [(key, value)];
        var (ch3, c5) := SkipWhitespace(s, c4, ch2);
        if ch3 == ',' {
          var (ch4, c6) := SkipWhitespace(s, c5, ch3);
          EntriesKeepFirstKey(s, c6, [(key, value)], ch4, scan);
        }
    }
  }

  /** The list loop never drops or moves an element it has read: a list it yields starts
      with the elements it already held, followed by the value read first. */
  lemma {:induction false} ItemsKeepPrefix(s: seq<char>, c: Cursor, items: seq<Json>, ch: char, scan: Scanner)
    requires c.pos <= |s|
    ensures var r := ParseItems(s, c, items, ch, scan);
      r.Ok? ==> (ParseValue(s, c, scan).Ok? && |items| < |r.value.0.items|
                 && r.value.0.items[..|items| + 1] == items + [ParseValue(s, c, scan).value.0])
    decreases |s| - c.pos
  {
    match ParseValue(s, c, scan)
    case Err(_) =>
    case Ok((item, c1)) =>
      var (ch1, c2) := SkipWhitespace(s, c1, ch);
      ItemStep(s, c, items, ch, scan, item, c1, ch1, c2);
      if ch1 == ',' {
        var (ch2, c3) := SkipWhitespace(s, c2, ch1);
        var r := ParseItems(s, c3, items + [item], ch2, scan);
        assert ParseItems(s, c, items, ch, scan) == r;
        ItemsKeepPrefix(s, c3, items + [item], ch2, scan);
        if r.Ok? {
          PrefixOfPrefix(r.value.0.items, items + [item], ParseValue(s, c3, scan).value.0);
        }
      } else if ch1 == ']' {
        assert (items + [item])[..|items| + 1] == items + [item];
      }
  }

  /** A sequence that starts with `p + [x]` starts with `p`. */
  lemma PrefixOfPrefix<T>(a: seq<T>, p: seq<T>, x: T)
    requires |p| < |a| && a[..|p| + 1] == p + [x]
    ensures a[..|p|] == p
  {
    assert a[..|p|] == a[..|p| + 1][..|p|];
  }

  /** A list read from input that opens with `[` and then a character that is neither white
      space nor `]` starts with the value read from that character. */
  lemma ListFirstElement(s: seq<char>, scan: Scanner)
    requires 2 <= |s| && s[0] == '[' && !IsSpace(s[1]) && s[1] != ']'
    ensures var r := Parse(s, scan);
      r.Ok? ==> (r.value.List? && r.value.items != [] && ParseValue(s, Cursor(1, false), scan).Ok?
                 && r.value.items[0] == ParseValue(s, Cursor(1, false), scan).value.0)
  {
    OpenList(s, scan);
    ItemsKeepPrefix(s, Cursor(1, false), [], s[1], scan);
    var r := ParseItems(s, Cursor(1, false), [], s[1], scan);
    if r.Ok? {
      assert r.value.0.items[0] == r.value.0.items[..1][0];
    }
  }

  /** The literal `null` itself is rejected: the `n` is read twice. */
  lemma NullIsRejected(scan: Scanner)
    ensures Parse("null", scan) == Err(InvalidNull)
  {
    DispatchLiteral("null", 1, scan);
  }

  /** The doubled leading letter is what the parser accepts. */
  lemma DoubledLiteralsAccepted(scan: Scanner)
    ensures Parse("nnull", scan) == Ok(Null)
    ensures Parse("ttrue", scan) == Ok(Bool(true))
    ensures Parse("ffalse", scan) == Ok(Bool(false))
  {
    assert Parse("nnull", scan) == Ok(Null) by {
      DoubledLiteral("nnull", scan);
    }
    assert Parse("ttrue", scan) == Ok(Bool(true)) by {
      DoubledLiteral("ttrue", scan);
    }
    assert Parse("ffalse", scan) == Ok(Bool(false)) by {
      DoubledLiteral("ffalse", scan);
    }
  }

  /** A literal whose leading letter is written twice, read from the start of the input. */
  lemma DoubledLiteral(s: seq<char>, scan: Scanner)
    requires s in {"nnull", "ttrue", "ffalse"}
    ensures Parse(s, scan) == Ok(if s[0] == 'n' then Null else Bool(s[0] == 't'))
  {
    ValueAtChar(s, Cursor(0, false), scan);
    DispatchLiteral(s, 1, scan);
    assert s[1..] == s[1..|s|];
  }

  /** The input of `NumberList`. */
  const NumberListInput: seq<char> := "[1]"

  /** A one-element list of a number. */
  lemma NumberList(s: seq<char>, scan: Scanner, n: Number)
    requires s == NumberListInput && scan("1]") == Some((n, 1))
    ensures Parse(s, scan) == Ok(List([Num(n)]))
  {
    assert |s| == 3 && s[0] == '[' && s[1] == '1' && s[2] == ']' && s[1..] == "1]";
    OpenList(s, scan);
    NumberValueAt(s, 1, scan);
    assert SkipIndex(s, 2) == 2;
    ItemSeparator(s, Cursor(1, false), [], '1', scan, Num(n), Cursor(2, false), 2);
    assert [] + [Num(n)] == [Num(n)];
  }

  /** Input `[` followed by a character that is neither white space nor `]` starts the
      element loop at that character. */
  lemma OpenList(s: seq<char>, scan: Scanner)
    requires 2 <= |s| && s[0] == '[' && !IsSpace(s[1]) && s[1] != ']'
    ensures ParseValue(s, Cursor(0, false), scan) == ParseItems(s, Cursor(1, false), [], s[1], scan)
  {
    assert SkipIndex(s, 0) == 0 && SkipIndex(s, 1) == 1;
    ValueAtChar(s, Cursor(0, false), scan);
    DispatchList(s, 1, scan);
  }

  /** Input `{` followed by a character that is neither white space nor `}` starts the
      entry loop at that character. */
  lemma OpenDictionary(s: seq<char>, scan: Scanner)
    requires 2 <= |s| && s[0] == '{' && !IsSpace(s[1]) && s[1] != '}'
    ensures ParseValue(s, Cursor(0, false), scan) == ParseEntries(s, Cursor(1, false), [], s[1], scan)
  {
    assert SkipIndex(s, 1) == 1;
    ValueAtChar(s, Cursor(0, false), scan);
    DispatchDictionary(s, 1, scan);
  }

  /** A value that starts with a digit or `-` is what the scanner reads from there. */
  lemma NumberValueAt(s: seq<char>, p: nat, scan: Scanner)
    requires p < |s| && (IsDigit(s[p]) || s[p] == '-')
    ensures ParseValue(s, Cursor(p, false), scan) ==
      match scan(s[p..])
      case None => Err(InvalidNumber)
      case Some((n, k)) => Ok((Num(n), Cursor(p + k, false)))
  {
    ValueAtChar(s, Cursor(p, false), scan);
    DispatchNumber(s, p + 1, s[p], scan);
  }

  /** The input of `RepeatedKeyOverwrites`. */
  const RepeatedKeyInput: seq<char> := "{a :_\"v\"_,_a :_\"w\"_}"

  /** A repeated key overwrites the first entry; one filler character after each `:`, each
      string and each `,` is swallowed. */
  lemma RepeatedKeyOverwrites(s: seq<char>, scan: Scanner)
    requires s == RepeatedKeyInput
    ensures Parse(s, scan) == Ok(Dict([("a", Str("w"))]))
  {
    RepeatedKeyOpens(s, scan);
    RepeatedKeyFirst(s, scan);
    RepeatedKeySecond(s, scan);
  }

  lemma RepeatedKeyOpens(s: seq<char>, scan: Scanner)
    requires s == RepeatedKeyInput
    ensures ParseValue(s, Cursor(0, false), scan) == ParseEntries(s, Cursor(1, false), [], 'a', scan)
  {
    assert |s| == 20 && s[0] == '{' && s[1] == 'a';
    OpenDictionary(s, scan);
  }

  lemma RepeatedKeyFirst(s: seq<char>, scan: Scanner)
    requires s == RepeatedKeyInput
    ensures ParseEntries(s, Cursor(1, false), [], 'a', scan)
         == ParseEntries(s, Cursor(11, false), [("a", Str("v"))], '_', scan)
  {
    RepeatedKeyValues(s, scan);
    RepeatedKeyLayout(s);
    assert SetFirst([], "a", Str("v")) == [("a", Str("v"))];
    EntryContinues(s, Cursor(1, false), [], 'a', scan, 1, 2, 3, 4, Str("v"), Cursor(9, false), 9, 10);
  }

  lemma RepeatedKeySecond(s: seq<char>, scan: Scanner)
    requires s == RepeatedKeyInput
    ensures ParseEntries(s, Cursor(11, false), [("a", Str("v"))], '_', scan)
         == Ok((Dict([("a", Str("w"))]), Cursor(20, false)))
  {
    RepeatedKeyValues(s, scan);
    RepeatedKeyLayout(s);
    assert FirstIndexOf([("a", Str("v"))], "a") == Some(0);
    assert SetFirst([("a", Str("v"))], "a", Str("w")) == [("a", Str("w"))];
    EntryCloses(s, Cursor(11, false), [("a", Str("v"))], '_', scan, 11, 12, 13, 14, Str("w"), Cursor(19, false));
  }

  /** Where the white-space scans stop in `RepeatedKeyInput`. */
  lemma RepeatedKeyLayout(s: seq<char>)
    requires s == RepeatedKeyInput
    ensures |s| == 20 && s[1..2] == "a" && s[11..12] == "a" && s[10] == '_'
    ensures SkipIndex(s, 1) == 1 && TokenEnd(s, 1) == 2 && SkipIndex(s, 2) == 3 && SkipIndex(s, 4) == 4
    ensures SkipIndex(s, 9) == 9 && SkipIndex(s, 10) == 10
    ensures SkipIndex(s, 11) == 11 && TokenEnd(s, 11) == 12 && SkipIndex(s, 12) == 13 && SkipIndex(s, 14) == 14
    ensures SkipIndex(s, 19) == 19
  {
    RepeatedKeyWords(s);
    RepeatedKeyGaps(s);
  }

  /** The two keys of `RepeatedKeyInput`, each a one-letter word followed by a space. */
  lemma RepeatedKeyWords(s: seq<char>)
    requires s == RepeatedKeyInput
    ensures |s| == 20 && s[1..2] == "a" && s[11..12] == "a"
    ensures TokenEnd(s, 1) == 2 && TokenEnd(s, 11) == 12
  {
    assert s[1] == 'a' && s[11] == 'a' && s[2] == ' ' && s[12] == ' ';
    assert s[1..2] == "a" && s[11..12] == "a";
    assert TokenEnd(s, 2) == 2 && TokenEnd(s, 12) == 12;
  }

  /** The characters of `RepeatedKeyInput` that are not white space, around its spaces. */
  lemma RepeatedKeyGaps(s: seq<char>)
    requires s == RepeatedKeyInput
    ensures s[10] == '_'
    ensures SkipIndex(s, 1) == 1 && SkipIndex(s, 2) == 3 && SkipIndex(s, 4) == 4
    ensures SkipIndex(s, 9) == 9 && SkipIndex(s, 10) == 10
    ensures SkipIndex(s, 11) == 11 && SkipIndex(s, 12) == 13 && SkipIndex(s, 14) == 14
    ensures SkipIndex(s, 19) == 19
  {
    assert s[1] == 'a' && s[2] == ' ' && s[3] == ':' && s[4] == '_' && s[9] == ',' && s[10] == '_';
    assert SkipIndex(s, 3) == 3;
    RepeatedKeySecondGaps(s);
  }

  lemma RepeatedKeySecondGaps(s: seq<char>)
    requires s == RepeatedKeyInput
    ensures SkipIndex(s, 11) == 11 && SkipIndex(s, 12) == 13 && SkipIndex(s, 14) == 14
    ensures SkipIndex(s, 19) == 19
  {
    assert s[11] == 'a' && s[12] == ' ' && s[13] == ':' && s[14] == '_' && s[19] == '}';
    assert SkipIndex(s, 13) == 13;
  }

  /** The two string values of `RepeatedKeyInput`. */
  lemma RepeatedKeyValues(s: seq<char>, scan: Scanner)
    requires s == RepeatedKeyInput
    ensures ParseValue(s, Cursor(5, false), scan) == Ok((Str("v"), Cursor(9, false)))
    ensures ParseValue(s, Cursor(15, false), scan) == Ok((Str("w"), Cursor(19, false)))
  {
    assert s[6..7] == "v" && s[16..17] == "w";
    assert QuoteIndex(s, 6) == 7 && QuoteIndex(s, 16) == 17;
    StringValueAt(s, 5, 7, scan);
    StringValueAt(s, 15, 17, scan);
  }

  /** A string value with one filler character after its closing quote. */
  lemma StringValueAt(s: seq<char>, p: nat, q: nat, scan: Scanner)
    requires p < q < |s| - 1 && s[p] == '"' && QuoteIndex(s, p + 1) == q && !IsSpace(s[q + 1])
    ensures ParseValue(s, Cursor(p, false), scan) == Ok((Str(s[p + 1..q]), Cursor(q + 2, false)))
  {
    QuotedValue(s, p, scan);
    SkipWhitespaceFinds(s, Cursor(q + 1, false), '"');
  }

  /** A value that starts with a quote is the string up to the next quote. */
  lemma QuotedValue(s: seq<char>, p: nat, scan: Scanner)
    requires p < |s| && s[p] == '"'
    ensures var q := QuoteIndex(s, p + 1);
      q < |s| ==>
        ParseValue(s, Cursor(p, false), scan) ==
          Ok((Str(s[p + 1..q]), SkipWhitespace(s, Cursor(q + 1, false), '"').1))
  {
    var q := QuoteIndex(s, p + 1);
    if q < |s| {
      DispatchString(s, p + 1, scan);
      ValueAtQuote(s, p, scan, Ok((Str(s[p + 1..q]), SkipWhitespace(s, Cursor(q + 1, false), '"').1)));
    }
  }

  /** A value read at a quote is whatever the dispatch on the quote, from the next position,
      yields. */
  lemma ValueAtQuote(s: seq<char>, p: nat, scan: Scanner, r: Result<(Json, Cursor), JsonError>)
    requires p < |s| && s[p] == '"' && Dispatch(s, Cursor(p + 1, false), '"', scan) == r
    ensures ParseValue(s, Cursor(p, false), scan) == r
  {
    ValueAtChar(s, Cursor(p, false), scan);
  }
}
