/** The input stream the parser reads from: a fixed character sequence, a read position
    and the stream's failure flag. Once an operation fails (end of input, a failed
    conversion) the flag stays set and every later read fails without moving.
    `isspace` and `isdigit` are taken in the "C" locale. */
module CharStreams {
  import opened Wrappers
  import opened JsonValues

  datatype Cursor = Cursor(pos: nat, failed: bool)

  /** `std::isspace` in the "C" locale. */
  predicate IsSpace(c: char)
  {
    c == ' ' || c == '\t' || c == '\n' || c == '\U{000B}' || c == '\U{000C}' || c == '\r'
  }

  /** `std::isdigit`. */
  predicate IsDigit(c: char)
  {
    '0' <= c <= '9'
  }

  /** The number scanner of `stream >> double`, applied to the rest of the input: the value
      read and how many characters it took, or None when no number could be read. */
  predicate ScansForward(f: seq<char> -> Option<(Number, nat)>, rest: seq<char>)
  {
    f(rest).Some? ==> 0 < f(rest).value.1 <= |rest|
  }

  function NoNumber(rest: seq<char>): Option<(Number, nat)>
  {
    None
  }

  /** A scanner that, when it succeeds, consumes at least one character and no more than
      there are. */
  type Scanner = f: seq<char> -> Option<(Number, nat)> | forall rest :: ScansForward(f, rest)
    witness NoNumber

  /** The first position at or after `p` that does not hold white space (or the end). */
  function SkipIndex(s: seq<char>, p: nat): (i: nat)
    requires p <= |s|
    ensures p <= i <= |s|
    ensures i < |s| ==> !IsSpace(s[i])
    ensures forall k :: p <= k < i ==> IsSpace(s[k])
    decreases |s| - p
  {
    if p == |s| || !IsSpace(s[p]) then p else SkipIndex(s, p + 1)
  }

  /** The first position at or after `p` that holds white space (or the end). */
  function TokenEnd(s: seq<char>, p: nat): (i: nat)
    requires p <= |s|
    ensures p <= i <= |s|
    ensures i < |s| ==> IsSpace(s[i])
    ensures forall k :: p <= k < i ==> !IsSpace(s[k])
    decreases |s| - p
  {
    if p == |s| || IsSpace(s[p]) then p else TokenEnd(s, p + 1)
  }

  /** `stream.get(ch)`: the next character, or None (setting the failure flag). */
  function GetChar(s: seq<char>, c: Cursor): (r: (Option<char>, Cursor))
    requires c.pos <= |s|
    ensures c.pos <= r.1.pos <= |s|
    ensures r.0.Some? <==> !c.failed && c.pos < |s|
    ensures r.0.Some? ==> r.0.value == s[c.pos] && r.1 == Cursor(c.pos + 1, false)
    ensures r.0.None? ==> r.1 == Cursor(c.pos, true)
  {
    if c.failed || c.pos == |s| then (None, Cursor(c.pos, true))
    else (Some(s[c.pos]), Cursor(c.pos + 1, false))
  }

  /** `while (stream.get(ch) && std::isspace(ch)) {}`: the loop keeps reading while it
      reads white space, so it also consumes the first character that is not; when a read
      fails, `ch` keeps the last character read (initially `ch`). */
  function SkipWhitespace(s: seq<char>, c: Cursor, ch: char): (r: (char, Cursor))
    requires c.pos <= |s|
    ensures c.pos <= r.1.pos <= |s|
    ensures !r.1.failed ==> c.pos < r.1.pos && s[r.1.pos - 1] == r.0 && !IsSpace(r.0)
    decreases |s| - c.pos
  {
    var (got, c1) := GetChar(s, c);
    match got
    case None => (ch, c1)
    case Some(x) => if IsSpace(x) then SkipWhitespace(s, c1, x) else (x, c1)
  }

  /** `stream.putback(ch)`: steps back over `ch` when it is the character just read; a
      failed stream is left as it is. */
  function PutBackChar(s: seq<char>, c: Cursor, ch: char): (r: Cursor)
    requires c.pos <= |s|
    ensures r.pos <= c.pos <= r.pos + 1
    ensures c.failed ==> r == c
    ensures !c.failed && 0 < c.pos && s[c.pos - 1] == ch ==> r == Cursor(c.pos - 1, false)
    ensures !c.failed && !(0 < c.pos && s[c.pos - 1] == ch) ==> r.failed
  {
    if c.failed then c
    else if 0 < c.pos && s[c.pos - 1] == ch then Cursor(c.pos - 1, false)
    else Cursor(c.pos, true)
  }

  /** `stream.read(buf, n)`: exactly `n` characters, or None when fewer remain. */
  function ReadChars(s: seq<char>, c: Cursor, n: nat): (r: (Option<seq<char>>, Cursor))
    requires c.pos <= |s|
    ensures c.pos <= r.1.pos <= |s|
    ensures r.0.Some? <==> !c.failed && c.pos + n <= |s|
    ensures r.0.Some? ==> r.0.value == s[c.pos..c.pos + n] && r.1 == Cursor(c.pos + n, false)
    ensures r.0.None? ==> r.1.failed
  {
    if c.failed then (None, c)
    else if |s| - c.pos < n then (None, Cursor(|s|, true))
    else (Some(s[c.pos..c.pos + n]), Cursor(c.pos + n, false))
  }

  /** `stream >> word` into an empty string: skips white space, then takes the longest run
      of characters that are not white space. */
  function ReadWord(s: seq<char>, c: Cursor): (r: (string, Cursor))
    requires c.pos <= |s|
    ensures c.pos <= r.1.pos <= |s|
    ensures forall k :: 0 <= k < |r.0| ==> !IsSpace(r.0[k])
    ensures r.1.failed ==> r.0 == []
    ensures !r.1.failed ==> 0 < |r.0| <= r.1.pos && r.0 == s[r.1.pos - |r.0|..r.1.pos]
    ensures !r.1.failed && r.1.pos < |s| ==> IsSpace(s[r.1.pos])
    ensures r.1.failed <==> c.failed || SkipIndex(s, c.pos) == |s|
    ensures !r.1.failed ==> r.1.pos - |r.0| == SkipIndex(s, c.pos) && r.1.pos == TokenEnd(s, SkipIndex(s, c.pos))
  {
    if c.failed then ("", c)
    else
      var start := SkipIndex(s, c.pos);
      if start == |s| then ("", Cursor(|s|, true))
      else
        var end := TokenEnd(s, start);
        (s[start..end], Cursor(end, false))
  }

  /** `stream >> number`. */
  function ScanNum(s: seq<char>, c: Cursor, scan: Scanner): (r: (Option<Number>, Cursor))
    requires c.pos <= |s|
    ensures c.pos <= r.1.pos <= |s|
    ensures r.0.Some? ==> c.pos < r.1.pos
  {
    if c.failed then (None, c)
    else
      assert ScansForward(scan, s[c.pos..]);
      match scan(s[c.pos..])
      case None => (None, Cursor(c.pos, true))
      case Some((n, k)) => (Some(n), Cursor(c.pos + k, false))
  }

  class CharStream {
    const input: seq<char>
    var pos: nat
    var failed: bool

    ghost predicate Valid()
      reads this
    {
      pos <= |input|
    }

    function State(): Cursor
      reads this
    {
      Cursor(pos, failed)
    }

    constructor (input: seq<char>)
      ensures Valid() && this.input == input && State() == Cursor(0, false)
    {
      this.input := input;
      pos, failed := 0, false;
    }

    method Get() returns (got: Option<char>)
      requires Valid()
      modifies this
      ensures Valid() && (got, State()) == GetChar(input, old(State()))
    {
      if failed || pos == |input| {
        failed := true;
        got := None;
      } else {
        got := Some(input[pos]);
        pos := pos + 1;
      }
    }

    /** One `while (stream.get(ch) && std::isspace(ch)) {}` loop; `ch0` is `ch` before it. */
    method SkipSpaces(ch0: char) returns (ch: char)
      requires Valid()
      modifies this
      ensures Valid() && (ch, State()) == SkipWhitespace(input, old(State()), ch0)
    {
      ch := ch0;
      while true
        invariant Valid()
        invariant SkipWhitespace(input, State(), ch) == SkipWhitespace(input, old(State()), ch0)
        decreases |input| - pos
      {
        var got := Get();
        if got.None? {
          return;
        }
        ch := got.value;
        if !IsSpace(ch) {
          return;
        }
      }
    }

    method PutBack(ch: char)
      requires Valid()
      modifies this
      ensures Valid() && State() == PutBackChar(input, old(State()), ch)
    {
      if !failed {
        if 0 < pos && input[pos - 1] == ch {
          pos := pos - 1;
        } else {
          failed := true;
        }
      }
    }

    method Read(n: nat) returns (buf: Option<seq<char>>)
      requires Valid()
      modifies this
      ensures Valid() && (buf, State()) == ReadChars(input, old(State()), n)
    {
      if failed {
        buf := None;
      } else if |input| - pos < n {
        buf := None;
        pos, failed := |input|, true;
      } else {
        buf := Some(input[pos..pos + n]);
        pos := pos + n;
      }
    }

    method ReadToken() returns (word: string)
      requires Valid()
      modifies this
      ensures Valid() && (word, State()) == ReadWord(input, old(State()))
    {
      var r := ReadWord(input, State());
      word := r.0;
      pos, failed := r.1.pos, r.1.failed;
    }

    method Scan(scan: Scanner) returns (n: Option<Number>)
      requires Valid()
      modifies this
      ensures Valid() && (n, State()) == ScanNum(input, old(State()), scan)
    {
      var r := ScanNum(input, State(), scan);
      n := r.0;
      pos, failed := r.1.pos, r.1.failed;
    }
  }
}
