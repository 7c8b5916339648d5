/** `stream << value`: the text form of a value. Strings and keys are written between
    double quotes with no escaping; list elements and dictionary entries are separated by
    ", ". Numbers are written by the standard library's double formatting, which is a
    parameter here. */
module JsonSerializer {
  import opened JsonValues

  /** The text `stream << double` writes for a number. */
  type Formatter = Number -> string

  /** `parts` separated by `sep`. */
  function Join(parts: seq<string>, sep: string): string
  {
    if parts == [] then ""
    else if |parts| == 1 then parts[0]
    else parts[0] + sep + Join(parts[1..], sep)
  }

  /** Adding one part at the end adds the separator (unless it is the only part) and the part:
      what the serializer's `first` flag achieves. */
  lemma {:induction false} JoinSnoc(parts: seq<string>, p: string, sep: string)
    ensures Join(parts + [p], sep) == if parts == [] then p else Join(parts, sep) + sep + p
  {
    if |parts| > 1 {
      assert (parts + [p])[1..] == parts[1..] + [p];
      JoinSnoc(parts[1..], p, sep);
    } else if |parts| == 1 {
      assert (parts + [p])[1..] == [p];
    }
  }

  /** The first `i + 1` parts joined: the first `i` joined, then the separator (unless
      `i` is 0) and part `i`. */
  lemma JoinPrefix(parts: seq<string>, i: nat, sep: string)
    requires i < |parts|
    ensures Join(parts[..i + 1], sep) == if i == 0 then parts[0] else Join(parts[..i], sep) + sep + parts[i]
  {
    JoinSnoc(parts[..i], parts[i], sep);
    assert parts[..i + 1] == parts[..i] + [parts[i]];
  }

  /** The text written for one dictionary entry. */
  function EntryText(key: string, valueText: string): string
  {
    "\"" + key + "\": " + valueText
  }

  function Format(v: Json, fmt: Formatter): string
    decreases v
  {
    match v
    case Str(s) => "\"" + s + "\""
    case Bool(b) => if b then "true" else "false"
    case Num(n) => fmt(n)
    case Null => "null"
    case List(items) =>
      "[" + Join(seq(|items|, i requires 0 <= i < |items| => Format(items[i], fmt)), ", ") + "]"
    case Dict(entries) =>
      "{" + Join(seq(|entries|, i requires 0 <= i < |entries| =>
                   EntryText(entries[i].0, Format(entries[i].1, fmt))), ", ") + "}"
  }

  /** The texts of a list's elements, in order. */
  function ItemTexts(items: seq<Json>, fmt: Formatter): (r: seq<string>)
    ensures |r| == |items| && forall i :: 0 <= i < |items| ==> r[i] == Format(items[i], fmt)
  {
    seq(|items|, i requires 0 <= i < |items| => Format(items[i], fmt))
  }

  /** The texts of a dictionary's entries, in stored order. */
  function EntryTexts(entries: seq<(string, Json)>, fmt: Formatter): (r: seq<string>)
    ensures |r| == |entries|
    ensures forall i :: 0 <= i < |entries| ==> r[i] == EntryText(entries[i].0, Format(entries[i].1, fmt))
  {
    seq(|entries|, i requires 0 <= i < |entries| => EntryText(entries[i].0, Format(entries[i].1, fmt)))
  }

  /** The serializer as the source runs it: one recursive call per element, writing ", "
      before every element but the first. */
  method Serialize(v: Json, fmt: Formatter) returns (text: string)
    ensures text == Format(v, fmt)
    decreases v, 2
  {
    match v
    case Str(s) =>
      text := "\"" + s + "\"";
    case Bool(b) =>
      text := if b then "true" else "false";
    case Num(n) =>
      text := fmt(n);
    case Null =>
      text := "null";
    case List(_) =>
      var body := SerializeItems(v, fmt);
      assert ItemTexts(v.items, fmt) == seq(|v.items|, i requires 0 <= i < |v.items| => Format(v.items[i], fmt));
      text := "[" + body + "]";
    case Dict(_) =>
      var body := SerializeEntries(v, fmt);
      assert EntryTexts(v.entries, fmt) == seq(|v.entries|, i requires 0 <= i < |v.entries| =>
                                                 EntryText(v.entries[i].0, Format(v.entries[i].1, fmt)));
      text := "{" + body + "}";
  }

  /** The list loop: the elements' texts joined by ", ". */
  method SerializeItems(v: Json, fmt: Formatter) returns (text: string)
    requires v.List?
    ensures text == Join(ItemTexts(v.items, fmt), ", ")
    decreases v, 1
  {
    var items := v.items;
    ghost var parts := ItemTexts(items, fmt);
    text := "";
    var first := true;
    var i := 0;
    while i < |items|
      invariant 0 <= i <= |items|
      invariant first <==> i == 0
      invariant text == Join(parts[..i], ", ")
    {
      if !first {
        text := text + ", ";
      }
      var t := Serialize(items[i], fmt);
      assert t == parts[i];
      text := text + t;
      first := false;
      JoinPrefix(parts, i, ", ");
      i := i + 1;
    }
    assert parts[..i] == parts;
  }

  /** The dictionary loop: the entries' texts `"key": value`, in stored order, joined by ", ". */
  method SerializeEntries(v: Json, fmt: Formatter) returns (text: string)
    requires v.Dict?
    ensures text == Join(EntryTexts(v.entries, fmt), ", ")
    decreases v, 1
  {
    var entries := v.entries;
    ghost var parts := EntryTexts(entries, fmt);
    text := "";
    var first := true;
    var i := 0;
    while i < |entries|
      invariant 0 <= i <= |entries|
      invariant first <==> i == 0
      invariant text == Join(parts[..i], ", ")
    {
      if !first {
        text := text + ", ";
      }
      var t := Serialize(entries[i].1, fmt);
      assert EntryText(entries[i].0, t) == parts[i];
      text := text + EntryText(entries[i].0, t);
      first := false;
      JoinPrefix(parts, i, ", ");
      i := i + 1;
    }
    assert parts[..i] == parts;
  }
}
