# craigs_python_utils in Dafny: observer dispatch and CFEngine rendering

This project models two small, sequential parts of `craigs_python_utils` and
proves what they promise.

* **The observer registry** (`ObserverPatternMixin`). It keeps an ordered list
  of observers. `register_observer` appends a value after checking that it is
  callable, and raises `TypeError` otherwise. `unregister_observer` removes
  the first equal occurrence and reports whether there was one. `notify` calls
  the observers in order with the same arguments and stops at the first one
  whose answer is truthy. It returns how many observers it called. The model
  is a Dafny class: `observers` is a `seq` field that the methods reassign,
  and `notify` is a `while` loop with invariants.
* **CFEngine module syntax** (`cfe_escape`, `CFEDict`). `cfe_escape` turns
  every `-` into `_`. A `CFEDict` renders its pairs as `=name[key]=value`
  lines, joined by newlines and ended by one more newline. Its name is the
  explicit `cfename`, or else the whitespace-stripped text before the first
  `=` on the source line of the call that made it. For a plain assignment
  `name = CFEDict(...)` that is the variable; on `foo(bar=CFEDict(...))` it
  is `foo(bar`. This part is pure and is modelled as
  functions over `string`. The dictionary is a datatype: its pairs in
  iteration order, plus the name chosen when it is made.

Files:

* `wrappers.dfy`: `Option` and `Result`. These stand in for keyword
  arguments that may be absent and for exceptions.
* `observer.dfy`: module `Observer`.
* `observer_scenarios.dfy`: module `ObserverScenarios`. It covers the
  documented test scenarios: counter-adding observers and a string that is
  not callable.
* `cfengine.dfy`: module `CFEngine`. It contains `cfe_escape`, string models
  of Python's `split`, `join` and `strip`, the name heuristic, and rendering.
* `cfengine_scenarios.dfy`: module `CFEngineScenarios`, the documented
  rendering scenarios.

How observers are modelled:

* An observer is any value of a type `O` with equality. CPython's list `in`
  and `list.remove` match an element when it is the same object or compares
  `==` to it. Dafny's reflexive `==` on `O` stands for that
  identity-or-equality test.
* Python's built-in `callable` is the function `isCallable`. It is given to
  the constructor, because the model cannot inspect Python values.
* Calling an observer is a function `call(o, args, w)`. It returns whether the
  answer is truthy and the new state `w` of whatever the observers act on.
  `notify` threads that state through the calls in order. `WorldAfter`
  computes the state after a prefix of the list. `ConsumesAt(k)` says whether
  the `k`-th observer consumes when called after its predecessors.

Two behaviours of the code worth knowing:

* `notify` on an empty list raises `UnboundLocalError`, because the loop
  never binds `count` (src/craigs_python_utils/observer.py:45-48). `Notify`
  returns `Err(UnboundLocalError)` in that case; it never returns 0.
* The error for a non-callable observer is Python's `TypeError`, carrying
  the offending value (src/craigs_python_utils/observer.py:28-29).

## Model

| member | source | states |
|---|---|---|
| `Observer.ObserverPatternMixin.constructor` | src/craigs_python_utils/observer.py:19-20 | a new object has an empty observer list and satisfies the invariant that every listed observer is callable |
| `Observer.ObserverPatternMixin.RegisterObserver` | src/craigs_python_utils/observer.py:22-30 | a callable is appended after the existing observers, so older ones keep their order. A non-callable value gives `Err(TypeError(value))` and leaves the list unchanged. The callable-only invariant is kept |
| `Observer.ObserverPatternMixin.UnregisterObserver` | src/craigs_python_utils/observer.py:32-37 | returns true exactly when the observer was in the list. The new list is the old one minus its first occurrence (`RemoveFirst`). The invariant is kept |
| `Observer.ObserverPatternMixin.Notify` | src/craigs_python_utils/observer.py:39-48 | on a registry whose observers are all callable, which registration guarantees: an empty list gives `Err(UnboundLocalError)` and calls no observer. Otherwise the count c satisfies 1 ≤ c ≤ length. None of the first c−1 observers consumed. If c is less than the length, observer c consumed. The final state is the state after calling exactly the first c observers, in order, with the same args. Notify has no modifies clause, so it cannot change the list (observers that change the list while being notified are left out, see below) |
| `Observer.RemoveFirst` | src/craigs_python_utils/observer.py:34-36 | the removal at line 36, made total. A present value shortens the list by one, and the multiset loses exactly one copy of it. An absent value, which the guard at lines 34-35 keeps away from `list.remove` (that would raise `ValueError`), leaves the list unchanged |
| `Observer.RemoveFirstAt` | src/craigs_python_utils/observer.py:32-37 | if the first occurrence of x is at index i, removal gives `s[..i] + s[i+1..]`: everything before and after it is unchanged |
| `Observer.RemoveFirstAppended` | src/craigs_python_utils/observer.py:30-36 | if x is not in s, appending x and then removing it gives back s |
| `ObserverScenarios.Invoke` | src/tests/test_observer.py:21-32 | NeverConsume adds the amount to the counter and answers false; AlwaysConsume adds it and answers true; a `Text` value is not callable and is never called |
| `ObserverScenarios.RegisterThenUnregister` | src/tests/test_observer.py:75-79 | on any registry without o, registering o and then unregistering it restores the list. The removal is reported exactly when o is callable |
| `ObserverScenarios.RegisterValid` | src/tests/test_observer.py:58-61 | a registered callable is in the list |
| `ObserverScenarios.RegisterInvalid` | src/tests/test_observer.py:63-67 | registering a string gives `TypeError` carrying that string, and the list stays empty |
| `ObserverScenarios.RegisterMany` | src/tests/test_observer.py:69-73 | two registrations give a list of length 2, in registration order |
| `ObserverScenarios.UnregisterValid` | src/tests/test_observer.py:75-79 | unregistering a registered observer reports true and removes it |
| `ObserverScenarios.UnregisterInvalid` | src/tests/test_observer.py:81-86 | unregistering an observer that was never registered reports false and leaves the list unchanged |
| `ObserverScenarios.NotifyOne` | src/tests/test_observer.py:88-92 | one consuming observer notified with 1: count 1, counter 1 |
| `ObserverScenarios.NotifyMany` | src/tests/test_observer.py:94-99 | a non-consuming observer, then a consuming one: both are called, count 2, counter 2 |
| `ObserverScenarios.NotifyManyStopsCorrectly` | src/tests/test_observer.py:101-106 | a consuming observer first: the second is not called, count 1, counter 1 |
| `ObserverScenarios.NotifyWithArgs` | src/tests/test_observer.py:108-112 | the argument 2 reaches the observer: counter 2, count 1 |
| `ObserverScenarios.NotifyEmpty` | src/craigs_python_utils/observer.py:45-48 | notifying an empty registry raises `UnboundLocalError` and leaves the counter unchanged |
| `CFEngine.CfeEscape` | src/craigs_python_utils/cfengine.py:10-12 | the output has no '-', has the same length as the input, holds '_' wherever the input held '-', and keeps every other character at its position |
| `CFEngine.CfeEscapeIdempotent` | src/craigs_python_utils/cfengine.py:12 | escaping twice equals escaping once |
| `CFEngine.CfeEscapeNoDash` | src/craigs_python_utils/cfengine.py:12 | a string without '-' is its own escape |
| `CFEngine.CfeEscapeConcat` | src/craigs_python_utils/cfengine.py:12 | escaping a concatenation is the concatenation of the escapes |
| `CFEngine.CfeEscapeCollides` | src/craigs_python_utils/cfengine.py:12 | escaping is not injective: the distinct keys "a-b" and "a_b" escape to the same text, so both render as `[a_b]` |
| `CFEngine.IndexOf` | src/craigs_python_utils/cfengine.py:26-27 | the position of the first occurrence, or the length when there is none: no earlier occurrence, and the result is below the length exactly when the character occurs |
| `CFEngine.Split` | src/craigs_python_utils/cfengine.py:27 | `str.split` with a one-character separator: at least one piece, and no piece contains the separator |
| `CFEngine.Join` | src/craigs_python_utils/cfengine.py:36 | `"\n".join`: empty for no pieces, otherwise it starts with the first piece. JoinLast, JoinSplit, SplitJoin and JoinTerminated specify it fully |
| `CFEngine.JoinLast` | src/craigs_python_utils/cfengine.py:36 | a join of at least one piece ends with the last piece |
| `CFEngine.SplitHead` | src/craigs_python_utils/cfengine.py:27 | `split(sep)[0]` is the text before the first separator |
| `CFEngine.JoinSplit` | src/craigs_python_utils/cfengine.py:27 | joining the pieces of a split with the separator gives back the input |
| `CFEngine.SplitJoin` | src/craigs_python_utils/cfengine.py:27 | splitting a join of separator-free pieces gives back the pieces |
| `CFEngine.IsSpaceExactly` | src/craigs_python_utils/cfengine.py:27 | the whitespace `strip()` removes is exactly space, tab, newline, vertical tab, form feed and carriage return |
| `CFEngine.TrimLeft` | src/craigs_python_utils/cfengine.py:27 | the result is a suffix of the input. Everything removed is whitespace, and the result does not start with whitespace |
| `CFEngine.TrimRight` | src/craigs_python_utils/cfengine.py:27 | the result is a prefix of the input. Everything removed is whitespace, and the result does not end with whitespace |
| `CFEngine.Strip` | src/craigs_python_utils/cfengine.py:27 | a non-empty result neither starts nor ends with whitespace |
| `CFEngine.TrimLeftExactly` | src/craigs_python_utils/cfengine.py:27 | `lstrip()` removes exactly a leading run of whitespace that is followed by a non-space character or by nothing |
| `CFEngine.TrimRightExactly` | src/craigs_python_utils/cfengine.py:27 | `rstrip()` removes exactly a trailing run of whitespace that follows a non-space character or nothing |
| `CFEngine.StripExactly` | src/craigs_python_utils/cfengine.py:27 | strip removes exactly the whitespace around a core that neither starts nor ends with whitespace |
| `CFEngine.StripIdempotent` | src/craigs_python_utils/cfengine.py:27 | stripping twice equals stripping once |
| `CFEngine.NameFromSourceLine` | src/craigs_python_utils/cfengine.py:24-28 | a line with '=' gives the whitespace-stripped text before its first '=', which contains no '='. A line without '=' gives "unparsable_python_name" |
| `CFEngine.NewCfeDict` | src/craigs_python_utils/cfengine.py:30-33 | the pairs are kept as given. A non-empty explicit cfename is used escaped. A missing or empty one gives way to the escaped name derived from the line. The name never contains '-' |
| `CFEngine.Line` | src/craigs_python_utils/cfengine.py:36 | the template `"={0}[{1}]={2}"`: the line is the name between a leading '=' and '[', then the escaped key, then "]=", then the escaped value, and its length is the sum of theirs plus 4 |
| `CFEngine.Lines` | src/craigs_python_utils/cfengine.py:36 | one line per pair, in iteration order, each `"=" + name + "[" + esc(key) + "]=" + esc(value)` |
| `CFEngine.Render` | src/craigs_python_utils/cfengine.py:35-36 | the output is never empty and always ends with a newline |
| `CFEngine.RenderEmpty` | src/craigs_python_utils/cfengine.py:36 | an empty dictionary renders as exactly "\n" |
| `CFEngine.RenderNonEmpty` | src/craigs_python_utils/cfengine.py:36 | a non-empty dictionary renders as each pair's line followed by "\n", concatenated in iteration order |
| `CFEngine.JoinTerminated` | src/craigs_python_utils/cfengine.py:36 | for a non-empty list, `"\n".join(lines) + "\n"` equals the concatenation of each line followed by "\n" |
| `CFEngine.RenderSplitsIntoLines` | src/craigs_python_utils/cfengine.py:36 | if the dictionary is non-empty and no name, key or value contains a newline, splitting the output at newlines gives the pairs' lines, then one empty piece |
| `CFEngineScenarios.RendersInModuleSyntax` | src/tests/test_cfengine.py:14-20 | `cfedict = CFEDict({"foo": "bar", "foo-foo": "bar-bar"})` renders as "=cfedict[foo]=bar\n=cfedict[foo_foo]=bar_bar\n", for any indentation and any text after the `=` |
| `CFEngineScenarios.ConfigurableName` | src/tests/test_cfengine.py:22-24 | with cfename "Fizz" the output is "=Fizz[foo]=bar\n", whatever the source line |
| `CFEngineScenarios.DefaultsToVariableName` | src/tests/test_cfengine.py:26-28 | `a_funny_name = CFEDict({"foo": "bar"})` renders as "=a_funny_name[foo]=bar\n" |
| `CFEngineScenarios.AnonymousName` | src/tests/test_cfengine.py:30-32 | any line without '=' renders under "unparsable_python_name" |
| `CFEngineScenarios.NameIsTextBeforeEquals` | src/craigs_python_utils/cfengine.py:26-27 | the derived name is the text before the first '=', whether or not it is a variable: on `foo(bar=...` it is "foo(bar" |
| `CFEngineScenarios.NamedByAssignment` | src/craigs_python_utils/cfengine.py:26-27 | on a line made of whitespace, a variable, whitespace, '=' and the rest, the derived name is the variable |

## Left out

- How the source line is found. `traceback.extract_stack()[-3][3]` inspects the runtime stack. Here the line is a parameter of `NameFromSourceLine` and `NewCfeDict`. The `TypeError` raised when the stack has no source text (the line is `None`) is not modelled.
- Python's `callable()` on arbitrary objects. It is the abstract predicate `isCallable`, given when the registry is made.
- Forwarding `*args`/`**kwargs`. The arguments are one opaque value `args`, passed unchanged to every observer.
- Notify: observers that register or unregister on the same object during `notify` are not modelled; the list is fixed for the whole dispatch. In the source the `for` loop walks the changed list, so removing the current observer skips the next one and an append extends the dispatch.
- Exceptions raised by observers during `notify`. These come from foreign code. In the source they abort dispatch and propagate. Here an observer is a total function `call`.
- Observers with non-deterministic behaviour. The model treats an observer's effect as a function of its arguments and of the state before the call.
- Dict iteration order. In Python 2 it is arbitrary, so the model takes the order as the given sequence of pairs. The model accepts any sequence of pairs; no property here needs distinct keys. Distinct keys can still render alike, since escaping is not injective (CfeEscapeCollides).
- Keys, values and `cfename`s that are not strings. The source calls `.replace` on them, which fails for other types. A Dafny `string` stands for a Python 2 `str`, one character per byte. `unicode` arguments are left out: the byte-string template `"={0}[{1}]={2}"` raises `UnicodeEncodeError` on a non-ASCII `unicode` key or value.
- `Strip` follows Python 2's `str.strip()` on byte strings: it removes space, tab, newline, vertical tab, form feed and carriage return. Python 3's additional Unicode whitespace is not modelled.
- `dict` behaviour inherited by `CFEDict` (item access, update and so on). The model keeps only construction and `__str__`.
- `src/craigs_python_utils/testing.py` (method aliases over `unittest.TestCase`) and `setup.py` (packaging metadata and file reads). These are not part of this model.
- Concurrency. The source is single-threaded and has no locking, and so does the model.
