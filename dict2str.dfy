/**
 * The nested-dictionary pretty printer of E7A/common/utils/dict2str.py.
 * `dict2str(d, indent)` wraps the text of `parse_dict(d, indent)` in braces;
 * `parse_dict` renders one group of lines per entry, in insertion order: a
 * leaf as `key: type = value`, a nested dictionary as `key:{`, its contents
 * at twice the indent, and `}`; the groups are joined with newlines.
 *
 * A dictionary is a `Values.Value` (its entries in insertion order), so the
 * leaves are `None`, booleans, integers and strings.
 */
module Dict2Str {
  import opened Values
  import opened Strings

  /** `type(value).__name__`. */
  function TypeName(v: Value): (r: string) {
    match v
    case Null => "NoneType"
    case Bool(_) => "bool"
    case Int(_) => "int"
    case Str(_) => "str"
    case Dict(_) => "dict"
  }

  /** `f"{value}"` for a leaf. */
  function Text(v: Value): (r: string)
    requires !v.Dict?
  {
    match v
    case Null => "None"
    case Bool(b) => if b then "True" else "False"
    case Int(i) => IntToString(i)
    case Str(s) => s
  }

  /** No leaf but a string prints a double quote. */
  lemma NoQuoteInText(v: Value)
    requires !v.Dict? && !v.Str?
    ensures '"' !in Text(v)
  {
    if v.Int? {
      var i := v.i;
      NatToStringRoundTrip(if i < 0 then -i else i);
      var digits := NatToString(if i < 0 then -i else i);
      assert Text(v) == if i < 0 then "-" + digits else digits;
      assert forall k :: 0 <= k < |digits| ==> digits[k] != '"';
    }
  }

  /** The value part of a leaf line: the text, in double quotes exactly when the value is a string. */
  function Shown(v: Value): (r: string)
    requires !v.Dict?
    ensures v.Str? ==> r == "\"" + v.s + "\""
    ensures !v.Str? ==> r == Text(v) && '"' !in r
  {
    if v.Str? then "\"" + Text(v) + "\""
    else NoQuoteInText(v); Text(v)
  }

  /** The line of a leaf entry. */
  function LeafLine(key: string, v: Value, indent: int): (r: string)
    requires !v.Dict?
    ensures var pad := if indent <= 0 then 0 else indent;
      && |r| >= pad
      && (forall i :: 0 <= i < pad ==> r[i] == ' ')
      && r[pad..] == key + ": " + TypeName(v) + " = " + Shown(v)
  {
    var body := key + ": " + TypeName(v) + " = " + Shown(v);
    DropPrefix(Spaces(indent), body);
    Spaces(indent) + body
  }

  lemma DropPrefix<T>(a: seq<T>, b: seq<T>)
    ensures (a + b)[..|a|] == a && (a + b)[|a|..] == b
  {
  }

  function Size(v: Value): (r: nat)
    decreases v
  {
    if v.Dict? then 1 + ItemsSize(v.items) else 1
  }

  function ItemsSize(items: seq<(string, Value)>): (r: nat)
    decreases items
  {
    if |items| == 0 then 0
    else
      assert items[0].1 < items[0];
      Size(items[0].1) + ItemsSize(items[1..])
  }

  /** The `items` list `parse_dict` builds. */
  function Lines(items: seq<(string, Value)>, indent: int): (lines: seq<string>)
    decreases ItemsSize(items), 1
  {
    if |items| == 0 then [] else Group(items[0], indent) + Lines(items[1..], indent)
  }

  /** The lines one entry adds to that list. */
  function Group(entry: (string, Value), indent: int): (r: seq<string>)
    decreases Size(entry.1), 0
    ensures !entry.1.Dict? ==> r == [LeafLine(entry.0, entry.1, indent)]
    ensures entry.1.Dict? ==> |r| == 3 && r[0] == Spaces(indent) + entry.0 + ":{" && r[2] == Spaces(indent) + "}"
  {
    var (key, v) := entry;
    if v.Dict? then
      [Spaces(indent) + key + ":{", ParseDict(v.items, indent * 2), Spaces(indent) + "}"]
    else [LeafLine(key, v, indent)]
  }

  /** `parse_dict(d, indent)`. */
  function ParseDict(items: seq<(string, Value)>, indent: int): (text: string)
    decreases ItemsSize(items), 2
  {
    Join("\n", Lines(items, indent))
  }

  /** `dict2str(d, indent)`: always braced, with the body on lines of its own. */
  function Dict2Str(d: seq<(string, Value)>, indent: int): (r: string)
    ensures |r| >= 4 && r[..2] == "{\n" && r[|r| - 2..] == "\n}"
    ensures r[2..|r| - 2] == ParseDict(d, indent)
    ensures |d| == 0 ==> r == "{\n\n}"
  {
    "{\n" + ParseDict(d, indent) + "\n}"
  }

  lemma {:induction false} LinesAppend(a: seq<(string, Value)>, b: seq<(string, Value)>, indent: int)
    ensures Lines(a + b, indent) == Lines(a, indent) + Lines(b, indent)
  {
    if |a| > 0 {
      assert (a + b)[0] == a[0];
      assert (a + b)[1..] == a[1..] + b;
      LinesAppend(a[1..], b, indent);
    } else {
      assert a + b == b;
    }
  }

  /** One group per entry, in order: the text of a concatenation is the two texts on consecutive lines. */
  lemma ParseDictAppend(a: seq<(string, Value)>, b: seq<(string, Value)>, indent: int)
    requires |a| > 0 && |b| > 0
    ensures ParseDict(a + b, indent) == ParseDict(a, indent) + "\n" + ParseDict(b, indent)
  {
    LinesAppend(a, b, indent);
    assert |Lines(a, indent)| > 0 by { assert Lines(a, indent) == Group(a[0], indent) + Lines(a[1..], indent); }
    assert |Lines(b, indent)| > 0 by { assert Lines(b, indent) == Group(b[0], indent) + Lines(b[1..], indent); }
    JoinAppend("\n", Lines(a, indent), Lines(b, indent));
  }

  /** A nested dictionary shows its header, its contents at twice the indent, and its closing brace. */
  lemma NestedEntry(key: string, children: seq<(string, Value)>, indent: int)
    ensures ParseDict([(key, Dict(children))], indent) ==
      Spaces(indent) + key + ":{\n" + ParseDict(children, indent * 2) + "\n" + Spaces(indent) + "}"
  {
    var items := [(key, Dict(children))];
    var lines := [Spaces(indent) + key + ":{", ParseDict(children, indent * 2), Spaces(indent) + "}"];
    assert items[1..] == [];
    assert Lines(items, indent) == Group(items[0], indent) + Lines(items[1..], indent);
    assert Lines(items, indent) == lines;
    assert lines[1..][1..] == [lines[2]];
    assert Join("\n", lines[1..]) == lines[1] + "\n" + lines[2];
    assert Join("\n", lines) == lines[0] + "\n" + Join("\n", lines[1..]);
  }

  function Pow2(d: nat): (r: nat)
    ensures r >= 1
  {
    if d == 0 then 1 else 2 * Pow2(d - 1)
  }

  /**
   * A reference rendering: the output as a flat outline in which every line
   * carries the nesting depth of the entry it belongs to. An empty nested
   * dictionary leaves one empty line between its header and its closing brace.
   */
  datatype OutlineLine =
    | Open(depth: nat, key: string)
    | Close(depth: nat)
    | Leaf(depth: nat, key: string, value: Value)
    | Blank

  function Outline(items: seq<(string, Value)>, depth: nat): (r: seq<OutlineLine>)
    decreases ItemsSize(items), 1
    ensures |items| > 0 ==> |r| > 0
  {
    if |items| == 0 then [] else EntryOutline(items[0], depth) + Outline(items[1..], depth)
  }

  function EntryOutline(entry: (string, Value), depth: nat): (r: seq<OutlineLine>)
    decreases Size(entry.1), 0
    ensures |r| > 0
  {
    if entry.1.Dict? then
      [Open(depth, entry.0)]
      + (if |entry.1.items| == 0 then [Blank] else Outline(entry.1.items, depth + 1))
      + [Close(depth)]
    else [Leaf(depth, entry.0, entry.1)]
  }

  /** A line of the outline at `base` spaces per unit of indent, doubled per level. */
  function RenderLine(line: OutlineLine, base: int): (r: string) {
    match line
    case Open(d, key) => Spaces(base * Pow2(d)) + key + ":{"
    case Close(d) => Spaces(base * Pow2(d)) + "}"
    case Leaf(d, key, v) =>
      if v.Dict? then "" else Spaces(base * Pow2(d)) + key + ": " + TypeName(v) + " = " + Shown(v)
    case Blank => ""
  }

  function RenderAll(lines: seq<OutlineLine>, base: int): (r: seq<string>)
    ensures |r| == |lines|
    ensures forall i :: 0 <= i < |lines| ==> r[i] == RenderLine(lines[i], base)
  {
    if |lines| == 0 then [] else [RenderLine(lines[0], base)] + RenderAll(lines[1..], base)
  }

  lemma {:induction false} RenderAllAppend(a: seq<OutlineLine>, b: seq<OutlineLine>, base: int)
    ensures RenderAll(a + b, base) == RenderAll(a, base) + RenderAll(b, base)
  {
    if |a| > 0 {
      assert (a + b)[0] == a[0];
      assert (a + b)[1..] == a[1..] + b;
      RenderAllAppend(a[1..], b, base);
    } else {
      assert a + b == b;
    }
  }

  /**
   * `parse_dict` agrees with the outline: an entry at nesting depth `d` below
   * a dictionary printed with indent `base` is indented by `base * 2^d` spaces.
   */
  lemma {:induction false} ParseDictIsOutline(items: seq<(string, Value)>, base: int, depth: nat)
    decreases ItemsSize(items), 1
    ensures ParseDict(items, base * Pow2(depth)) == Join("\n", RenderAll(Outline(items, depth), base))
  {
    if |items| > 0 {
      var indent := base * Pow2(depth);
      var head := RenderAll(EntryOutline(items[0], depth), base);
      var tail := RenderAll(Outline(items[1..], depth), base);
      RenderAllAppend(EntryOutline(items[0], depth), Outline(items[1..], depth), base);
      LinesAppend([items[0]], items[1..], indent);
      assert [items[0]] + items[1..] == items;
      GroupIsOutline(items[0], base, depth);
      if |items| > 1 {
        ParseDictIsOutline(items[1..], base, depth);
        JoinAppend("\n", Group(items[0], indent), Lines(items[1..], indent));
        JoinAppend("\n", head, tail);
      } else {
        assert Lines(items, indent) == Group(items[0], indent);
        assert RenderAll(Outline(items, depth), base) == head;
      }
    }
  }

  lemma {:induction false} GroupIsOutline(entry: (string, Value), base: int, depth: nat)
    decreases Size(entry.1), 0
    ensures Join("\n", Group(entry, base * Pow2(depth))) == Join("\n", RenderAll(EntryOutline(entry, depth), base))
  {
    var (key, v) := entry;
    var indent := base * Pow2(depth);
    if v.Dict? {
      var inner := if |v.items| == 0 then [Blank] else Outline(v.items, depth + 1);
      NestedIsOutline(v.items, base, depth);
      var first := Spaces(indent) + key + ":{";
      var last := Spaces(indent) + "}";
      RenderFramed(key, inner, base, depth);
      assert Group(entry, indent) == [first] + [ParseDict(v.items, indent * 2)] + [last];
      SameJoinFramed("\n", first, RenderAll(inner, base), ParseDict(v.items, indent * 2), last);
    }
  }

  /** The contents of a nested dictionary, printed at twice the indent, are its outline one level deeper. */
  lemma {:induction false} NestedIsOutline(items: seq<(string, Value)>, base: int, depth: nat)
    decreases ItemsSize(items), 2
    ensures var inner := if |items| == 0 then [Blank] else Outline(items, depth + 1);
      |RenderAll(inner, base)| > 0 &&
      Join("\n", RenderAll(inner, base)) == ParseDict(items, base * Pow2(depth) * 2)
  {
    assert base * Pow2(depth) * 2 == base * Pow2(depth + 1);
    if |items| > 0 {
      ParseDictIsOutline(items, base, depth + 1);
    } else {
      assert [Blank][1..] == [];
      assert RenderAll([Blank], base) == [""];
    }
  }

  lemma SameJoinFramed(sep: string, first: string, mid: seq<string>, body: string, last: string)
    requires |mid| > 0 && Join(sep, mid) == body
    ensures Join(sep, [first] + mid + [last]) == Join(sep, [first] + [body] + [last])
  {
    JoinFramed(sep, first, mid, last);
    JoinFramed(sep, first, [body], last);
  }

  /** A nested dictionary renders as its header line, its contents and its closing line. */
  lemma RenderFramed(key: string, inner: seq<OutlineLine>, base: int, depth: nat)
    ensures RenderAll([Open(depth, key)] + inner + [Close(depth)], base) ==
      [Spaces(base * Pow2(depth)) + key + ":{"] + RenderAll(inner, base) + [Spaces(base * Pow2(depth)) + "}"]
  {
    RenderAllAppend([Open(depth, key)] + inner, [Close(depth)], base);
    RenderAllAppend([Open(depth, key)], inner, base);
  }
}
