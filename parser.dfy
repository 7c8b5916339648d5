/** `stream >> value`: a recursive-descent parser that reads one value from a character
    stream, consuming it exactly as the source does.

    The behaviour is the code's, not standard JSON's (RFC 8259):
    - each `while (get(ch) && isspace(ch))` loop also consumes the first character that is
      not white space; only the loops before a number, a list element and a first dictionary
      key put it back. So the character after a `,` or a `:` is swallowed, and so is the
      character after a literal or a string;
    - after the leading `n`, `t` or `f` has been read, the NEXT 4, 4 or 5 characters must be
      `null`, `true` or `false`: `nnull` is null and `null` is an error;
    - strings end at the next `"` (or the end of input) with no escapes;
    - dictionary keys are whitespace-delimited words, not quoted strings;
    - a repeated key overwrites the first entry with that key.
    The functions below give the result and the stream state after the read; the
    methods further down are the parser as the source writes it, proved to agree. */
module JsonParser {
  import opened Wrappers
  import opened JsonValues
  import opened CharStreams

  /** A literal branch (`null`, `true`, `false`): read |word| characters, compare, then run
      one white-space loop. */
  function ParseLiteral(s: seq<char>, c: Cursor, ch: char, word: string, v: Json, err: JsonError)
    : (r: Result<(Json, Cursor), JsonError>)
    requires c.pos <= |s| && |word| > 0
    ensures r.Ok? ==> c.pos < r.value.1.pos <= |s| && r.value.0 == v
    ensures r.Err? ==> r.error == err
  {
    var (buf, c1) := ReadChars(s, c, |word|);
    if buf == Some(word) then
      var (_, c2) := SkipWhitespace(s, c1, ch);
      Ok((v, c2))
    else
      Err(err)
  }

  /** `while (get(c) && c != '"') str += c`: the characters up to the next quote or the end
      of input, consuming the quote. */
  function ReadQuoted(s: seq<char>, c: Cursor, acc: string): (r: (string, Cursor))
    requires c.pos <= |s|
    ensures c.pos <= r.1.pos <= |s|
    decreases |s| - c.pos
  {
    var (got, c1) := GetChar(s, c);
    if got.None? || got.value == '"' then (acc, c1)
    else ReadQuoted(s, c1, acc + [got.value])
  }

  /** One value: skip white space, then dispatch on the first character that is not. When
      the very first read fails the source compares an uninitialised `ch`; here that is
      `EndOfInput`. */
  function ParseValue(s: seq<char>, c: Cursor, scan: Scanner): (r: Result<(Json, Cursor), JsonError>)
    requires c.pos <= |s|
    ensures r.Ok? ==> c.pos < r.value.1.pos <= |s|
    decreases |s| - c.pos, 0
  {
    var (first, c1) := GetChar(s, c);
    if first.None? then Err(EndOfInput)
    else
      var (ch, c2) := if IsSpace(first.value) then SkipWhitespace(s, c1, first.value)
                      else (first.value, c1);
      Dispatch(s, c2, ch, scan)
  }

  /** The branch selected by `ch`, the character the white-space loop stopped at (or, when
      the input ran out, the last white-space character it read). */
  function Dispatch(s: seq<char>, c: Cursor, ch: char, scan: Scanner): (r: Result<(Json, Cursor), JsonError>)
    requires c.pos <= |s|
    ensures r.Ok? ==> c.pos <= r.value.1.pos <= |s|
    decreases |s| - c.pos, 2
  {
    if ch == 'n' then ParseLiteral(s, c, ch, "null", Null, InvalidNull)
    else if ch == 't' then ParseLiteral(s, c, ch, "true", Bool(true), InvalidBool)
    else if ch == 'f' then ParseLiteral(s, c, ch, "false", Bool(false), InvalidBool)
    else if ch == '"' then
      var (str, c1) := ReadQuoted(s, c, "");
      var (_, c2) := SkipWhitespace(s, c1, ch);
      Ok((Str(str), c2))
    else if IsDigit(ch) || ch == '-' then
      var (num, c1) := ScanNum(s, PutBackChar(s, c, ch), scan);
      if num.None? then Err(InvalidNumber) else Ok((Num(num.value), c1))
    else if ch == '[' then
      var (ch1, c1) := SkipWhitespace(s, c, ch);
      if ch1 == ']' then Ok((List([]), c1))
      else ParseItems(s, PutBackChar(s, c1, ch1), [], ch1, scan)
    else if ch == '{' then
      var (ch1, c1) := SkipWhitespace(s, c, ch);
      if ch1 == '}' then Ok((Dict([]), c1))
      else ParseEntries(s, PutBackChar(s, c1, ch1), [], ch1, scan)
    else Err(UnexpectedCharacter)
  }

  /** The list loop from one element on: `items` are the elements read so far and `ch` is
      the list frame's `ch`, which a failed read leaves unchanged. */
  function ParseItems(s: seq<char>, c: Cursor, items: seq<Json>, ch: char, scan: Scanner)
    : (r: Result<(Json, Cursor), JsonError>)
    requires c.pos <= |s|
    ensures r.Ok? ==> c.pos < r.value.1.pos <= |s| && r.value.0.List?
    decreases |s| - c.pos, 1
  {
    match ParseValue(s, c, scan)
    case Err(e) => Err(e)
    case Ok((item, c1)) =>
      var (ch1, c2) := SkipWhitespace(s, c1, ch);
      if ch1 == ',' then
        var (ch2, c3) := SkipWhitespace(s, c2, ch1);
        ParseItems(s, c3, items + [item], ch2, scan)
      else if ch1 == ']' then Ok((List(items + [item]), c2))
      else Err(InvalidArray)
  }

  /** The dictionary loop from one entry on: a word as the key, white space, `:`, the value,
      stored with `d[key] = value`, then `,` or `}`. */
  function ParseEntries(s: seq<char>, c: Cursor, entries: seq<(string, Json)>, ch: char, scan: Scanner)
    : (r: Result<(Json, Cursor), JsonError>)
    requires c.pos <= |s|
    ensures r.Ok? ==> c.pos < r.value.1.pos <= |s| && r.value.0.Dict?
    decreases |s| - c.pos, 1
  {
    var (key, c1) := ReadWord(s, c);
    var (ch1, c2) := SkipWhitespace(s, c1, ch);
    if ch1 != ':' then Err(InvalidObject)
    else
      var (ch2, c3) := SkipWhitespace(s, c2, ch1);
      match ParseValue(s, c3, scan)
      case Err(e) => Err(e)
      case Ok((value, c4)) =>
        var updated := SetFirst(entries, key, value);
        var (ch3, c5) := SkipWhitespace(s, c4, ch2);
        if ch3 == ',' then
          var (ch4, c6) := SkipWhitespace(s, c5, ch3);
          ParseEntries(s, c6, updated, ch4, scan)
        else if ch3 == '}' then Ok((Dict(updated), c5))
        else Err(InvalidObject)
  }

  /** Reading one value from the start of `s`. */
  function Parse(s: seq<char>, scan: Scanner): (r: Result<Json, JsonError>)
  {
    match ParseValue(s, Cursor(0, false), scan)
    case Ok((v, _)) => Ok(v)
    case Err(e) => Err(e)
  }

  /** The method's outcome, target value and stream state are those the function gives. */
  ghost predicate Agrees(o: Outcome<JsonError>, v: Json, c: Cursor, spec: Result<(Json, Cursor), JsonError>)
  {
    match spec
    case Ok((w, d)) => o == Pass && v == w && c == d
    case Err(e) => o == Fail(e)
  }

  /** `operator>>(stream, rhs)`. After a failure `rhs` holds whatever was filled in before
      the throw; the contract says nothing about it. */
  method ReadJson(stream: CharStream, rhs: JsonValue, scan: Scanner) returns (o: Outcome<JsonError>)
    requires stream.Valid()
    modifies stream, rhs
    ensures stream.Valid()
    ensures Agrees(o, rhs.value, stream.State(), ParseValue(stream.input, old(stream.State()), scan))
    decreases |stream.input| - stream.pos, 0
  {
    rhs.SetNull();   // rhs = json()
    var first := stream.Get();
    if first.None? {
      return Fail(EndOfInput);
    }
    var ch := first.value;
    if IsSpace(ch) {
      ch := stream.SkipSpaces(ch);
    }
    o := ReadFrom(stream, rhs, ch, scan);
  }

  /** The branches of `operator>>`, selected by `ch`. */
  method ReadFrom(stream: CharStream, rhs: JsonValue, ch: char, scan: Scanner) returns (o: Outcome<JsonError>)
    requires stream.Valid()
    modifies stream, rhs
    ensures stream.Valid()
    ensures Agrees(o, rhs.value, stream.State(), Dispatch(stream.input, old(stream.State()), ch, scan))
    decreases |stream.input| - stream.pos, 3
  {
    if ch == 'n' {
      o := ReadLiteral(stream, rhs, ch, "null", Null, InvalidNull);
    } else if ch == 't' {
      o := ReadLiteral(stream, rhs, ch, "true", Bool(true), InvalidBool);
    } else if ch == 'f' {
      o := ReadLiteral(stream, rhs, ch, "false", Bool(false), InvalidBool);
    } else if ch == '"' {
      var str := ReadString(stream);
      rhs.SetString(str);
      var last := stream.SkipSpaces(ch);
      o := Pass;
    } else if IsDigit(ch) || ch == '-' {
      stream.PutBack(ch);
      var num := stream.Scan(scan);
      if num.None? {
        return Fail(InvalidNumber);
      }
      rhs.SetNumber(num.value);
      o := Pass;
    } else if ch == '[' {
      rhs.SetList();
      var next := stream.SkipSpaces(ch);
      if next != ']' {
        stream.PutBack(next);
        o := ReadItems(stream, rhs, next, scan);
      } else {
        o := Pass;
      }
    } else if ch == '{' {
      rhs.SetDictionary();
      var next := stream.SkipSpaces(ch);
      if next != '}' {
        stream.PutBack(next);
        o := ReadEntries(stream, rhs, next, scan);
      } else {
        o := Pass;
      }
    } else {
      o := Fail(UnexpectedCharacter);
    }
  }

  method ReadLiteral(stream: CharStream, rhs: JsonValue, ch: char, word: string, v: Json, err: JsonError)
    returns (o: Outcome<JsonError>)
    requires stream.Valid() && |word| > 0
    requires v == Null || v == Bool(true) || v == Bool(false)
    modifies stream, rhs
    ensures stream.Valid()
    ensures Agrees(o, rhs.value, stream.State(), ParseLiteral(stream.input, old(stream.State()), ch, word, v, err))
  {
    var buf := stream.Read(|word|);
    if buf == Some(word) {
      var last := stream.SkipSpaces(ch);
      if v.Null? {
        rhs.SetNull();
      } else {
        rhs.SetBool(v.b);
      }
      o := Pass;
    } else {
      o := Fail(err);
    }
  }

  /** The string body loop. */
  method ReadString(stream: CharStream) returns (str: string)
    requires stream.Valid()
    modifies stream
    ensures stream.Valid() && (str, stream.State()) == ReadQuoted(stream.input, old(stream.State()), "")
  {
    str := "";
    while true
      invariant stream.Valid()
      invariant ReadQuoted(stream.input, stream.State(), str) == ReadQuoted(stream.input, old(stream.State()), "")
      decreases |stream.input| - stream.pos
    {
      var got := stream.Get();
      if got.None? || got.value == '"' {
        return;
      }
      str := str + [got.value];
    }
  }

  /** The list loop, entered after the first element's character has been put back. */
  method ReadItems(stream: CharStream, rhs: JsonValue, ch0: char, scan: Scanner) returns (o: Outcome<JsonError>)
    requires stream.Valid() && rhs.value == List([])
    modifies stream, rhs
    ensures stream.Valid()
    ensures Agrees(o, rhs.value, stream.State(), ParseItems(stream.input, old(stream.State()), [], ch0, scan))
    decreases |stream.input| - stream.pos, 1
  {
    ghost var target := ParseItems(stream.input, stream.State(), [], ch0, scan);
    var ch := ch0;
    while true
      invariant stream.Valid() && rhs.value.List?
      invariant old(stream.pos) <= stream.pos
      invariant ParseItems(stream.input, stream.State(), rhs.value.items, ch, scan) == target
      decreases |stream.input| - stream.pos
    {
      var item := new JsonValue();
      o := ReadJson(stream, item, scan);
      if o.Fail? {
        return;
      }
      var pushed := rhs.PushBack(item.value);
      ch := stream.SkipSpaces(ch);
      if ch == ',' {
        ch := stream.SkipSpaces(ch);
      } else if ch == ']' {
        return;
      } else {
        return Fail(InvalidArray);
      }
    }
  }

  /** The dictionary loop, entered after the first key's character has been put back. */
  method ReadEntries(stream: CharStream, rhs: JsonValue, ch0: char, scan: Scanner) returns (o: Outcome<JsonError>)
    requires stream.Valid() && rhs.value == Dict([])
    modifies stream, rhs
    ensures stream.Valid()
    ensures Agrees(o, rhs.value, stream.State(), ParseEntries(stream.input, old(stream.State()), [], ch0, scan))
    decreases |stream.input| - stream.pos, 2
  {
    ghost var target := ParseEntries(stream.input, stream.State(), [], ch0, scan);
    var ch := ch0;
    while true
      invariant stream.Valid() && rhs.value.Dict?
      invariant ParseEntries(stream.input, stream.State(), rhs.value.entries, ch, scan) == target
      decreases |stream.input| - stream.pos
    {
      var more;
      o, ch, more := ReadEntry(stream, rhs, ch, scan);
      if !more {
        return;
      }
    }
  }

  /** One turn of the dictionary loop: the key, `:`, the value, `rhs[key] = value`, and the
      separator. It either ends the loop with the outcome `ParseEntries` gives, or, after
      a `,`, leaves a strictly later state from which `ParseEntries` gives the same. */
  method ReadEntry(stream: CharStream, rhs: JsonValue, ch0: char, scan: Scanner)
    returns (o: Outcome<JsonError>, ch: char, more: bool)
    requires stream.Valid() && rhs.value.Dict?
    modifies stream, rhs
    ensures stream.Valid() && rhs.value.Dict?
    ensures more ==> old(stream.pos) < stream.pos
    ensures more ==> ParseEntries(stream.input, stream.State(), rhs.value.entries, ch, scan) ==
                     ParseEntries(stream.input, old(stream.State()), old(rhs.value.entries), ch0, scan)
    ensures !more ==>
      Agrees(o, rhs.value, stream.State(), ParseEntries(stream.input, old(stream.State()), old(rhs.value.entries), ch0, scan))
    decreases |stream.input| - stream.pos, 1
  {
    EntryStep(stream.input, stream.State(), rhs.value.entries, ch0, scan);
    more := false;
    var key := stream.ReadToken();
    ch := stream.SkipSpaces(ch0);
    if ch != ':' {
      return Fail(InvalidObject), ch, false;
    }
    ch := stream.SkipSpaces(ch);
    var value := new JsonValue();
    o := ReadJson(stream, value, scan);
    if o.Fail? {
      return;
    }
    rhs.Put(key, value.value);   // rhs[key] = value
    ch := stream.SkipSpaces(ch);
    if ch == ',' {
      ch := stream.SkipSpaces(ch);
      more := true;
    } else if ch != '}' {
      o := Fail(InvalidObject);
    }
  }

  /** One unfolding of `ParseEntries`, with its intermediate states named. */
  lemma EntryStep(s: seq<char>, c: Cursor, entries: seq<(string, Json)>, ch: char, scan: Scanner)
    requires c.pos <= |s|
    ensures var (key, c1) := ReadWord(s, c);
      var (ch1, c2) := SkipWhitespace(s, c1, ch);
      ParseEntries(s, c, entries, ch, scan) ==
        if ch1 != ':' then Err(InvalidObject)
        else
          var (ch2, c3) := SkipWhitespace(s, c2, ch1);
          match ParseValue(s, c3, scan)
          case Err(e) => Err(e)
          case Ok((value, c4)) =>
            var (ch3, c5) := SkipWhitespace(s, c4, ch2);
            if ch3 == ',' then
              var (ch4, c6) := SkipWhitespace(s, c5, ch3);
              ParseEntries(s, c6, SetFirst(entries, key, value), ch4, scan)
            else if ch3 == '}' then Ok((Dict(SetFirst(entries, key, value)), c5))
            else Err(InvalidObject)
  {
  }
}
