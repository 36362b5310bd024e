/**
 * Rendering a dictionary in CFEngine 3 module syntax (cfe_escape and CFEDict).
 *
 * A CFEDict is its pairs in the dictionary's iteration order together with
 * the name it renders under, chosen once, when it is made.  The name is the
 * explicit `cfename` argument or else the whitespace-stripped text before
 * the first '=' on the source line of the call that made it (for a plain
 * assignment `name = CFEDict(...)`, the variable); that line is a parameter
 * here.
 */
module CFEngine {
  import opened Wrappers

  // ---------------------------------------------------------------------------
  // cfe_escape

  /** The character `c` with '-' munged to '_'. */
  function EscapeChar(c: char): char {
    if c == '-' then '_' else c
  }

  /** raw.replace("-", "_"): each '-' becomes '_', every other character stays at its position. */
  function CfeEscape(raw: string): (r: string)
    ensures |r| == |raw|
    ensures forall i :: 0 <= i < |raw| ==> r[i] == (if raw[i] == '-' then '_' else raw[i])
    ensures '-' !in r
  {
    seq(|raw|, i requires 0 <= i < |raw| => EscapeChar(raw[i]))
  }

  /** Escaping twice is escaping once. */
  lemma CfeEscapeIdempotent(raw: string)
    ensures CfeEscape(CfeEscape(raw)) == CfeEscape(raw)
  {
  }

  /** Escaping is not injective: the distinct keys "a-b" and "a_b" escape alike, so they render the same `[a_b]`. */
  lemma CfeEscapeCollides()
    ensures "a-b" != "a_b" && CfeEscape("a-b") == CfeEscape("a_b")
  {
    assert "a-b"[1] != "a_b"[1];
  }

  /** A string without '-' is its own escape. */
  lemma CfeEscapeNoDash(raw: string)
    requires '-' !in raw
    ensures CfeEscape(raw) == raw
  {
  }

  /** Escaping works piecewise on a concatenation. */
  lemma CfeEscapeConcat(a: string, b: string)
    ensures CfeEscape(a + b) == CfeEscape(a) + CfeEscape(b)
  {
  }

  // ---------------------------------------------------------------------------
  // str.split, str.join and str.strip, as the name heuristic and __str__ use them

  /** The position of the first `c` in `s`, or |s| when there is none. */
  function IndexOf(s: string, c: char): (i: nat)
    ensures i <= |s| && c !in s[..i]
    ensures i < |s| <==> c in s
    ensures i < |s| ==> s[i] == c
  {
    if s == [] then 0
    else if s[0] == c then 0
    else
      assert s[..1 + IndexOf(s[1..], c)] == [s[0]] + s[1..][..IndexOf(s[1..], c)];
      1 + IndexOf(s[1..], c)
  }

  /** The first `c` in `p + [c] + t`, when `p` has none, is at |p|. */
  lemma {:induction false} IndexOfAfter(p: string, c: char, t: string)
    requires c !in p
    ensures IndexOf(p + [c] + t, c) == |p|
  {
    if p != [] {
      assert (p + [c] + t)[1..] == p[1..] + [c] + t;
      IndexOfAfter(p[1..], c, t);
    }
  }

  /** s.split(sep) for a one-character separator: the pieces between the separators. */
  function Split(s: string, sep: char): (parts: seq<string>)
    ensures |parts| >= 1
    ensures forall i :: 0 <= i < |parts| ==> sep !in parts[i]
  {
    if s == [] then [[]]
    else
      var rest := Split(s[1..], sep);
      if s[0] == sep then [[]] + rest else [[s[0]] + rest[0]] + rest[1..]
  }

  /** sep.join(parts): empty for no pieces, otherwise it starts with the first piece. */
  function Join(parts: seq<string>, sep: string): (r: string)
    ensures |parts| == 0 ==> r == []
    ensures |parts| >= 1 ==> parts[0] <= r
  {
    if |parts| == 0 then []
    else if |parts| == 1 then parts[0]
    else parts[0] + sep + Join(parts[1..], sep)
  }

  /** A non-empty join ends with the last piece. */
  lemma {:induction false} JoinLast(parts: seq<string>, sep: string)
    requires |parts| >= 1
    ensures var r := Join(parts, sep); var last := parts[|parts| - 1];
      |last| <= |r| && r[|r| - |last|..] == last
  {
    if |parts| >= 2 {
      JoinLast(parts[1..], sep);
      var r := Join(parts[1..], sep);
      assert (parts[0] + sep + r)[|parts[0] + sep|..] == r;
    }
  }

  /** The first piece of a split is the text before the first separator. */
  lemma {:induction false} SplitHead(s: string, sep: char)
    ensures Split(s, sep)[0] == s[..IndexOf(s, sep)]
  {
    if s != [] && s[0] != sep {
      SplitHead(s[1..], sep);
    }
  }

  /** Joining the pieces of a split with the separator gives back the string. */
  lemma {:induction false} JoinSplit(s: string, sep: char)
    ensures Join(Split(s, sep), [sep]) == s
  {
    if s != [] {
      var rest := Split(s[1..], sep);
      JoinSplit(s[1..], sep);
      if s[0] == sep {
        assert Split(s, sep) == [[]] + rest;
        assert s == [sep] + s[1..];
      } else {
        var parts := Split(s, sep);
        assert parts == [[s[0]] + rest[0]] + rest[1..];
        if |rest| == 1 {
          assert s == [s[0]] + rest[0];
        } else {
          assert parts[1..] == rest[1..];
          assert Join(rest, [sep]) == rest[0] + [sep] + Join(rest[1..], [sep]);
          assert s == [s[0]] + s[1..];
        }
      }
    }
  }

  /** Splitting a string that starts with a piece and a separator yields that piece first. */
  lemma {:induction false} SplitCons(p: string, sep: char, t: string)
    requires sep !in p
    ensures Split(p + [sep] + t, sep) == [p] + Split(t, sep)
  {
    if p == [] {
      assert [] + [sep] + t == [sep] + t;
      assert ([sep] + t)[1..] == t;
    } else {
      assert (p + [sep] + t)[1..] == p[1..] + [sep] + t;
      SplitCons(p[1..], sep, t);
      assert [p[0]] + p[1..] == p;
    }
  }

  /** Splitting a join of separator-free pieces gives back the pieces. */
  lemma {:induction false} SplitJoin(parts: seq<string>, sep: char)
    requires |parts| >= 1
    requires forall i :: 0 <= i < |parts| ==> sep !in parts[i]
    ensures Split(Join(parts, [sep]), sep) == parts
  {
    if |parts| == 1 {
      SplitNoSep(parts[0], sep);
    } else {
      SplitJoin(parts[1..], sep);
      SplitCons(parts[0], sep, Join(parts[1..], [sep]));
      assert parts == [parts[0]] + parts[1..];
    }
  }

  /** A string without the separator splits into itself alone. */
  lemma {:induction false} SplitNoSep(s: string, sep: char)
    requires sep !in s
    ensures Split(s, sep) == [s]
  {
    if s != [] {
      SplitNoSep(s[1..], sep);
      assert s == [s[0]] + s[1..];
    }
  }

  /** The characters Python 2's str.strip() removes: space, tab, newline, vertical tab, form feed, carriage return. */
  function IsSpace(c: char): bool {
    c == ' ' || '\t' <= c <= '\r'
  }

  /** The whitespace strip() removes is exactly space, tab, newline, vertical tab, form feed and carriage return. */
  lemma IsSpaceExactly(c: char)
    ensures IsSpace(c) <==> c in {' ', '\t', '\n', '\U{B}', '\U{C}', '\r'}
  {
  }

  /** s.lstrip(): `s` without its leading whitespace. */
  function TrimLeft(s: string): (r: string)
    ensures |r| <= |s| && r == s[|s| - |r|..]
    ensures forall i :: 0 <= i < |s| - |r| ==> IsSpace(s[i])
    ensures r != [] ==> !IsSpace(r[0])
  {
    if s != [] && IsSpace(s[0]) then TrimLeft(s[1..]) else s
  }

  /** s.rstrip(): `s` without its trailing whitespace. */
  function TrimRight(s: string): (r: string)
    ensures |r| <= |s| && r == s[..|r|]
    ensures forall i :: |r| <= i < |s| ==> IsSpace(s[i])
    ensures r != [] ==> !IsSpace(r[|r| - 1])
  {
    if s != [] && IsSpace(s[|s| - 1]) then TrimRight(s[..|s| - 1]) else s
  }

  /** s.strip(): `s` without its leading and trailing whitespace. */
  function Strip(s: string): (r: string)
    ensures r != [] ==> !IsSpace(r[0]) && !IsSpace(r[|r| - 1])
  {
    TrimRight(TrimLeft(s))
  }

  /** lstrip() removes exactly a leading run of whitespace that is followed by a non-space or by nothing. */
  lemma TrimLeftExactly(a: string, t: string)
    requires forall i :: 0 <= i < |a| ==> IsSpace(a[i])
    requires t == [] || !IsSpace(t[0])
    ensures TrimLeft(a + t) == t
  {
    var s := a + t;
    var l := TrimLeft(s);
    if t != [] {
      assert s[|a|] == t[0];
    } else {
      assert forall i :: 0 <= i < |s| ==> IsSpace(s[i]);
    }
  }

  /** rstrip() removes exactly a trailing run of whitespace that follows a non-space or nothing. */
  lemma TrimRightExactly(m: string, b: string)
    requires forall i :: 0 <= i < |b| ==> IsSpace(b[i])
    requires m == [] || !IsSpace(m[|m| - 1])
    ensures TrimRight(m + b) == m
  {
    var s := m + b;
    var r := TrimRight(s);
    if m != [] {
      assert s[|m| - 1] == m[|m| - 1];
    } else {
      assert forall i :: 0 <= i < |s| ==> IsSpace(s[i]);
    }
  }

  /** Whitespace around a core that neither starts nor ends with whitespace is what strip() removes. */
  lemma StripExactly(a: string, m: string, b: string)
    requires forall i :: 0 <= i < |a| ==> IsSpace(a[i])
    requires forall i :: 0 <= i < |b| ==> IsSpace(b[i])
    requires m == [] || (!IsSpace(m[0]) && !IsSpace(m[|m| - 1]))
    ensures Strip(a + m + b) == m
  {
    if m == [] {
      assert a + m + b == a + b;
      TrimLeftExactly(a + b, []);
      assert a + b + [] == a + b;
      forall i | 0 <= i < |a + b| ensures IsSpace((a + b)[i]) {
        if i >= |a| { assert (a + b)[i] == b[i - |a|]; }
      }
    } else {
      assert a + m + b == a + (m + b);
      TrimLeftExactly(a, m + b);
      TrimRightExactly(m, b);
    }
  }

  /** strip() is idempotent. */
  lemma StripIdempotent(s: string)
    ensures Strip(Strip(s)) == Strip(s)
  {
    StripExactly([], Strip(s), []);
    assert [] + Strip(s) + [] == Strip(s);
  }

  // ---------------------------------------------------------------------------
  // CFEDict

  /** The name used when the source line gives no variable to take one from. */
  const UnparsableName: string := "unparsable_python_name"

  /**
   * The name heuristic given the caller's source line: the text before the
   * first '=' with its whitespace stripped, or UnparsableName when the line
   * has no '='.
   */
  function NameFromSourceLine(line: string): (name: string)
    ensures '=' !in line ==> name == UnparsableName
    ensures '=' in line ==> name == Strip(line[..IndexOf(line, '=')])
    ensures '=' in line ==> '=' !in name
  {
    if '=' in line then
      SplitHead(line, '=');
      Strip(Split(line, '=')[0])
    else UnparsableName
  }

  datatype CfeDict = CfeDict(items: seq<(string, string)>, cfename: string)

  /**
   * CFEDict(items, cfename=...) made on source line `line`.  An explicit name
   * that is not empty wins over the one read off the line; either way it is
   * escaped.
   */
  function NewCfeDict(items: seq<(string, string)>, cfename: Option<string>, line: string): (d: CfeDict)
    ensures d.items == items
    ensures '-' !in d.cfename
    ensures cfename.Some? && cfename.value != [] ==> d.cfename == CfeEscape(cfename.value)
    ensures cfename.None? || cfename.value == [] ==> d.cfename == CfeEscape(NameFromSourceLine(line))
  {
    var raw := if cfename.Some? && cfename.value != [] then cfename.value else NameFromSourceLine(line);
    CfeDict(items, CfeEscape(raw))
  }

  /**
   * One pair in module syntax, "={0}[{1}]={2}" filled with the name and the
   * escaped key and value: the name sits between the leading '=' and '[',
   * the escaped key between '[' and "]=", and the escaped value is the rest.
   */
  function Line(name: string, key: string, value: string): (r: string)
    ensures |r| == |name| + |key| + |value| + 4
    ensures r[0] == '=' && r[1..|name| + 1] == name && r[|name| + 1] == '['
    ensures r[|name| + 2..|name| + 2 + |key|] == CfeEscape(key)
    ensures r[|name| + 2 + |key|..|name| + 4 + |key|] == "]="
    ensures r[|name| + 4 + |key|..] == CfeEscape(value)
  {
    "=" + name + "[" + CfeEscape(key) + "]=" + CfeEscape(value)
  }

  /** The module-syntax line of every pair, in iteration order. */
  function Lines(name: string, items: seq<(string, string)>): (ls: seq<string>)
    ensures |ls| == |items|
    ensures forall i :: 0 <= i < |items| ==> ls[i] == Line(name, items[i].0, items[i].1)
  {
    if items == [] then [] else [Line(name, items[0].0, items[0].1)] + Lines(name, items[1..])
  }

  /** str(d): the lines joined by newlines, plus one final newline. */
  function Render(d: CfeDict): (out: string)
    ensures |out| >= 1 && out[|out| - 1] == '\n'
  {
    Join(Lines(d.cfename, d.items), "\n") + "\n"
  }

  /** Each line followed by its own newline, concatenated. */
  function Terminated(ls: seq<string>): string {
    if ls == [] then [] else ls[0] + "\n" + Terminated(ls[1..])
  }

  /** Joining non-empty lines and adding a newline is terminating each line. */
  lemma {:induction false} JoinTerminated(ls: seq<string>)
    requires |ls| >= 1
    ensures Join(ls, "\n") + "\n" == Terminated(ls)
  {
    if |ls| > 1 {
      JoinTerminated(ls[1..]);
    }
  }

  /** An empty dictionary renders as a single newline. */
  lemma RenderEmpty(d: CfeDict)
    requires d.items == []
    ensures Render(d) == "\n"
  {
  }

  /** A non-empty dictionary renders as one terminated "=name[key]=value" line per pair, in order. */
  lemma RenderNonEmpty(d: CfeDict)
    requires d.items != []
    ensures Render(d) == Terminated(Lines(d.cfename, d.items))
  {
    JoinTerminated(Lines(d.cfename, d.items));
  }

  /**
   * When the dictionary is not empty and neither the name nor any key or
   * value holds a newline, splitting the output at newlines gives back the
   * lines of the pairs, then the empty text after the final newline.  (An
   * empty dictionary's output is one blank line: see RenderEmpty.)
   */
  lemma RenderSplitsIntoLines(d: CfeDict)
    requires d.items != []
    requires '\n' !in d.cfename
    requires forall i :: 0 <= i < |d.items| ==> '\n' !in d.items[i].0 && '\n' !in d.items[i].1
    ensures Split(Render(d), '\n') == Lines(d.cfename, d.items) + [[]]
  {
    var ls := Lines(d.cfename, d.items);
    forall i | 0 <= i < |ls| ensures '\n' !in ls[i] {
      var k, v := d.items[i].0, d.items[i].1;
      assert ls[i] == "=" + d.cfename + "[" + CfeEscape(k) + "]=" + CfeEscape(v);
      assert '\n' !in CfeEscape(k) && '\n' !in CfeEscape(v);
    }
    SplitJoin(ls + [[]], '\n');
    JoinSnoc(ls, "\n");
  }

  /** Joining with one more, empty, piece appends a final separator. */
  lemma {:induction false} JoinSnoc(ls: seq<string>, sep: string)
    requires |ls| >= 1
    ensures Join(ls + [[]], sep) == Join(ls, sep) + sep
  {
    if |ls| > 1 {
      JoinSnoc(ls[1..], sep);
      assert (ls + [[]])[1..] == ls[1..] + [[]];
    } else {
      assert (ls + [[]])[1..] == [[]];
    }
  }
}
