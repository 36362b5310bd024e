/**
 * The dictionary's documented scenarios.  Each is stated for every source
 * line of the documented shape: any indentation, and anything to the right
 * of the assignment.
 *
 * The small lemmas after the scenarios (VariableFacts, FunnyNameOutput,
 * UnparsableOutput, TwoLinesTerminated, DashedEscapes, LiteralLine0,
 * LiteralLine1, EscapedLine, Regroup, DerivedName, AssignedTo, FooBar,
 * TwoPairs, TwoPairLines, KeywordTarget) model nothing of their own: each settles one
 * equation between string literals or one step of a scenario in a context
 * of its own, because the verifier runs out of resources when those
 * equations are proved inside the scenarios that use them.
 */
module CFEngineScenarios {
  import opened Wrappers
  import opened CFEngine

  /** A dictionary assigned to `cfedict` renders each pair under that name, with '-' munged to '_'. */
  lemma RendersInModuleSyntax(indent: string, rest: string)
    requires forall i :: 0 <= i < |indent| ==> IsSpace(indent[i])
    ensures Render(NewCfeDict([("foo", "bar"), ("foo-foo", "bar-bar")], None, indent + "cfedict" + " = " + rest))
         == "=cfedict[foo]=bar\n=cfedict[foo_foo]=bar_bar\n"
  {
    VariableFacts("cfedict");
    AssignedTo([("foo", "bar"), ("foo-foo", "bar-bar")], indent, "cfedict", rest);
    TwoPairs();
  }

  /** An explicit cfename is what the dictionary renders under, whatever its source line. */
  lemma ConfigurableName(line: string)
    ensures Render(NewCfeDict([("foo", "bar")], Some("Fizz"), line)) == "=Fizz[foo]=bar\n"
  {
    VariableFacts("Fizz");
    CfeEscapeNoDash("Fizz");
    FooBar("Fizz", "=Fizz[foo]=bar\n");
  }

  /** Without cfename the name is the variable the dictionary is assigned to. */
  lemma DefaultsToVariableName(indent: string, rest: string)
    requires forall i :: 0 <= i < |indent| ==> IsSpace(indent[i])
    ensures Render(NewCfeDict([("foo", "bar")], None, indent + "a_funny_name" + " = " + rest)) == "=a_funny_name[foo]=bar\n"
  {
    VariableFacts("a_funny_name");
    FunnyNameOutput();
    AssignedTo([("foo", "bar")], indent, "a_funny_name", rest);
    FooBar("a_funny_name", "=a_funny_name[foo]=bar\n");
  }

  /** A dictionary made on a line with no assignment renders under the fallback name. */
  lemma AnonymousName(line: string)
    requires '=' !in line
    ensures Render(NewCfeDict([("foo", "bar")], None, line)) == "=unparsable_python_name[foo]=bar\n"
  {
    VariableFacts(UnparsableName);
    UnparsableOutput();
    CfeEscapeNoDash(UnparsableName);
    FooBar(UnparsableName, "=unparsable_python_name[foo]=bar\n");
  }

  /** What a name needs in order to be read off an assignment and used unescaped. */
  lemma VariableFacts(v: string)
    requires v in ["cfedict", "a_funny_name", "Fizz", UnparsableName]
    ensures v != [] && !IsSpace(v[0]) && !IsSpace(v[|v| - 1])
    ensures '=' !in v && '-' !in v
  {
  }

  /** The documented output under a_funny_name, assembled from its parts. */
  lemma FunnyNameOutput()
    ensures "=a_funny_name[foo]=bar\n" == "=" + "a_funny_name" + "[foo]=bar\n"
  {
  }

  /** The documented output under the fallback name, assembled from its parts. */
  lemma UnparsableOutput()
    ensures "=unparsable_python_name[foo]=bar\n" == "=" + UnparsableName + "[foo]=bar\n"
  {
  }

  /** The dictionary {"foo": "bar"} under `name` renders as `out`. */
  lemma FooBar(name: string, out: string)
    requires out == "=" + name + "[foo]=bar\n"
    ensures Render(CfeDict([("foo", "bar")], name)) == out
  {
    CfeEscapeNoDash("foo");
    CfeEscapeNoDash("bar");
    assert Lines(name, [("foo", "bar")]) == [Line(name, "foo", "bar")];
  }

  /** The dictionary {"foo": "bar", "foo-foo": "bar-bar"} under the name cfedict. */
  lemma TwoPairs()
    ensures Render(CfeDict([("foo", "bar"), ("foo-foo", "bar-bar")], "cfedict"))
         == "=cfedict[foo]=bar\n=cfedict[foo_foo]=bar_bar\n"
  {
    var d := CfeDict([("foo", "bar"), ("foo-foo", "bar-bar")], "cfedict");
    var l0, l1 := "=cfedict[foo]=bar", "=cfedict[foo_foo]=bar_bar";
    TwoPairLines();
    RenderNonEmpty(d);
    assert Terminated([l0, l1]) == l0 + "\n" + (l1 + "\n" + Terminated([]));
    TwoLinesTerminated(l0, l1);
  }

  /** The two lines, each followed by a newline, spell the documented output. */
  lemma TwoLinesTerminated(l0: string, l1: string)
    requires l0 == "=cfedict[foo]=bar" && l1 == "=cfedict[foo_foo]=bar_bar"
    ensures l0 + "\n" + (l1 + "\n" + []) == "=cfedict[foo]=bar\n=cfedict[foo_foo]=bar_bar\n"
  {
  }

  /** The two lines of {"foo": "bar", "foo-foo": "bar-bar"} under the name cfedict. */
  lemma TwoPairLines()
    ensures Lines("cfedict", [("foo", "bar"), ("foo-foo", "bar-bar")])
         == ["=cfedict[foo]=bar", "=cfedict[foo_foo]=bar_bar"]
  {
    var ls := Lines("cfedict", [("foo", "bar"), ("foo-foo", "bar-bar")]);
    assert ls[0] == "=cfedict[foo]=bar" by {
      CfeEscapeNoDash("foo");
      CfeEscapeNoDash("bar");
      EscapedLine("cfedict", "foo", "bar", "foo", "bar");
      LiteralLine0();
    }
    assert ls[1] == "=cfedict[foo_foo]=bar_bar" by {
      DashedEscapes();
      EscapedLine("cfedict", "foo-foo", "bar-bar", "foo_foo", "bar_bar");
      LiteralLine1();
    }
  }

  /** The escapes of the dashed key and value. */
  lemma DashedEscapes()
    ensures CfeEscape("foo-foo") == "foo_foo" && CfeEscape("bar-bar") == "bar_bar"
  {
  }

  /** The first line, assembled from its parts. */
  lemma LiteralLine0()
    ensures "=" + "cfedict" + "[" + "foo" + "]=" + "bar" == "=cfedict[foo]=bar"
  {
  }

  /** The second line, assembled from its parts. */
  lemma LiteralLine1()
    ensures "=" + "cfedict" + "[" + "foo_foo" + "]=" + "bar_bar" == "=cfedict[foo_foo]=bar_bar"
  {
  }

  /** The line of one pair whose escaped key and value are `k` and `v`. */
  lemma EscapedLine(name: string, key: string, value: string, k: string, v: string)
    requires CfeEscape(key) == k && CfeEscape(value) == v
    ensures Line(name, key, value) == "=" + name + "[" + k + "]=" + v
  {
  }

  /** A dictionary made without cfename on the line `indent + variable + " = " + rest` is named after the variable. */
  lemma AssignedTo(items: seq<(string, string)>, indent: string, variable: string, rest: string)
    requires forall i :: 0 <= i < |indent| ==> IsSpace(indent[i])
    requires variable != [] && !IsSpace(variable[0]) && !IsSpace(variable[|variable| - 1])
    requires '=' !in variable && '-' !in variable
    ensures NewCfeDict(items, None, indent + variable + " = " + rest) == CfeDict(items, variable)
  {
    AssignmentName(indent, variable, rest);
    DerivedName(items, indent + variable + " = " + rest, variable);
  }

  /** The name read off `indent + variable + " = " + rest` is the variable. */
  lemma AssignmentName(indent: string, variable: string, rest: string)
    requires forall i :: 0 <= i < |indent| ==> IsSpace(indent[i])
    requires variable != [] && !IsSpace(variable[0]) && !IsSpace(variable[|variable| - 1])
    requires '=' !in variable
    ensures NameFromSourceLine(indent + variable + " = " + rest) == variable
  {
    NamedByAssignment(indent, variable, " ", " " + rest);
    Regroup(indent, variable, rest);
  }

  /** The line `indent + variable + " = " + rest`, regrouped around its '='. */
  lemma Regroup(indent: string, variable: string, rest: string)
    ensures indent + variable + " " + "=" + (" " + rest) == indent + variable + " = " + rest
  {
  }

  /** A dictionary made without cfename takes the name read off its line, which escaping leaves alone when it has no '-'. */
  lemma DerivedName(items: seq<(string, string)>, line: string, variable: string)
    requires NameFromSourceLine(line) == variable && '-' !in variable
    ensures NewCfeDict(items, None, line) == CfeDict(items, variable)
  {
    CfeEscapeNoDash(variable);
  }

  /** On a line `indent + variable + gap + "=" + rest`, the derived name is the variable. */
  lemma {:induction false} NamedByAssignment(indent: string, variable: string, gap: string, rest: string)
    requires forall i :: 0 <= i < |indent| ==> IsSpace(indent[i])
    requires forall i :: 0 <= i < |gap| ==> IsSpace(gap[i])
    requires variable != [] && !IsSpace(variable[0]) && !IsSpace(variable[|variable| - 1])
    requires '=' !in indent + variable + gap
    ensures NameFromSourceLine(indent + variable + gap + "=" + rest) == variable
  {
    var line := indent + variable + gap + "=" + rest;
    var prefix := indent + variable + gap;
    assert line == prefix + "=" + rest;
    assert line[..|prefix|] == prefix;
    IndexOfAfter(prefix, '=', rest);
    StripExactly(indent, variable, gap);
  }

  /**
   * The derived name is whatever precedes the first '=', not necessarily a
   * variable: a dictionary passed as a keyword argument, `foo(bar=...`, is
   * named "foo(bar".
   */
  lemma NameIsTextBeforeEquals(rest: string)
    ensures NameFromSourceLine("foo(bar" + "=" + rest) == "foo(bar"
  {
    KeywordTarget();
    var v: string := "foo(bar";
    NamedByAssignment([], v, [], rest);
    assert [] + v + [] == v;
  }

  /** "foo(bar" neither starts nor ends with whitespace and holds no '='. */
  lemma KeywordTarget()
    ensures var v: string := "foo(bar"; !IsSpace(v[0]) && !IsSpace(v[|v| - 1]) && '=' !in v
  {
    var v: string := "foo(bar";
    assert v[0] == 'f' && v[|v| - 1] == 'r';
    assert forall i :: 0 <= i < |v| ==> v[i] != '=';
  }
}
