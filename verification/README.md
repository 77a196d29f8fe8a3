# show_dict, modelled in Dafny

`analysistools.show_dict(obj, name=None)` prints an object's attribute
dictionary for inspection. It prints a blue title, then a green header
`<label>.__dict__`, then one line per attribute in ascending key order.
The label is `name` if that is truthy, else `obj.__name__` if the object
has one, else `str(obj)`. Each attribute line is
`key.rjust(OFFSET+3, ' ')`, `:` and the item, as three `print` arguments.
`OFFSET` is the length of the longest key.

The model has three modules:

- `PyStr` (`pystr.dfy`): the Python string operations the function uses.
  These are `str.rjust`, `c * n`, the single-space separator of `print`,
  and `str` comparison (`<`, by code point, with a proper prefix ordered
  first). Lemmas show that `<` is irreflexive, asymmetric, transitive and
  total on distinct strings, and that it matches a reference definition
  ("common prefix, then a smaller code point or the end of `a`").
- `PyDict` (`pydict.dfy`): an attribute dictionary as its item sequence in
  insertion order with unique keys, and `sorted(d.items())` as an insertion
  sort by key. The sort is proved to give a strictly ascending permutation.
  It is also proved to be the only one, so it agrees with Python's `sorted`
  whatever algorithm that uses.
- `AnalysisTools` (`show_dict.dfy`): the object record, the label
  fallback, `OFFSET`, the rows, and `ShowDict`. `ShowDict` returns the
  texts passed to `print`, in order, and the exception raised, if any.

An object with no `__dict__` (an `int`, say) is modelled too. The title
and header are printed before `obj.__dict__` is read, so the model gives
those two lines followed by `AttributeError`.

Values and the object's own text are given as strings: `str(item)` and
`str(obj)` are inputs, not computed. Rendering is a pure function of
immutable values, so it cannot change the dictionary.

## Model

| member | source | states |
|---|---|---|
| `PyStr.RJust` | analysistools.py:34 | `str.rjust`: the result is `max(width, len(s))` long and ends with `s`. Everything before `s` is the fill character, and `s` comes back unchanged when it is already wide enough. |
| `PyStr.Repeat` | analysistools.py:34 | The padding `' ' * n` is `n` characters, all spaces. |
| `PyStr.PrintText` | analysistools.py:34 | What `print(*args)` writes: nothing for no arguments, the argument itself for one, and otherwise the first argument, a space after it, and the last argument at the end. |
| `PyStr.PrintTextLength` | analysistools.py:34 | `print` adds exactly one space between each pair of neighbouring arguments: the text is the arguments' total length plus `len(args) - 1`. |
| `PyStr.PrintTextIsJoin` | analysistools.py:34 | The text `print(*args)` writes is exactly `' '.join(args)`, defined independently by adding one argument at a time on the right. |
| `PyStr.JoinLeftCons` | analysistools.py:34 | Joining with single spaces can equally be built from the left: the first argument, a space, then the rest joined. |
| `PyStr.PrintThree` | analysistools.py:34 | `print(a, b, c)` writes `a + ' ' + b + ' ' + c`. |
| `PyStr.LessIffLessAt` | analysistools.py:33 | The key order used by `sorted` holds exactly when the two keys share a prefix of some length `k`, and then `a` ends at `k` while `b` goes on, or `a[k] < b[k]`. |
| `PyStr.LessIrreflexive` | analysistools.py:33 | No key is smaller than itself. |
| `PyStr.LessAsymmetric` | analysistools.py:33 | Two keys are never each smaller than the other. |
| `PyStr.LessTransitive` | analysistools.py:33 | The key order is transitive. |
| `PyStr.LessTotal` | analysistools.py:33 | Distinct keys are always ordered, so sorting the `(key, item)` tuples never compares items. |
| `PyDict.AscendingHasUniqueKeys` | analysistools.py:33 | A strictly ascending item sequence never repeats a key. |
| `PyDict.Insert` | analysistools.py:33 | Inserting an item with a new key into an ascending sequence keeps it ascending, and adds exactly that item. |
| `PyDict.LessTransitiveAll` | analysistools.py:33 | An item smaller than the first of an ascending sequence is smaller than all of it. |
| `PyDict.SortByKey` | analysistools.py:33 | `sorted(d.items())` is strictly ascending by key, and is a permutation of the items with the same length. |
| `PyDict.AscendingPermutationUnique` | analysistools.py:33 | Two strictly ascending arrangements of the same items are equal. So the sorted order is fully determined by the items. |
| `PyDict.SortIgnoresInsertionOrder` | analysistools.py:33 | Two dicts holding the same items, inserted in any order, sort to the same sequence. |
| `AnalysisTools.EmptyNameFallsThrough` | analysistools.py:20-25 | An empty `name` is falsy: it picks the same label as no name, which is `__name__` when the object has one and `str(obj)` otherwise. |
| `AnalysisTools.HeaderLabel` | analysistools.py:21-25 | Any line read back as a header is exactly the header of the label read: the green prefix, the label, `.__dict__`, then the colour reset. |
| `AnalysisTools.HeaderRoundTrip` | analysistools.py:21-25 | The header ends with `.__dict__` before the colour reset, and reading the label back from a header gives that label. |
| `AnalysisTools.ShowDictHeader` | analysistools.py:17-25 | The label printed in the header is `name` when truthy, even if the object has a `__name__`. Otherwise it is `obj.__name__` when present, otherwise `str(obj)`. |
| `AnalysisTools.OffsetFrom` | analysistools.py:28-30 | The running-maximum loop ends at least at its start value and at least at every key length. It ends either at the start value or at some key's length. |
| `AnalysisTools.Offset` | analysistools.py:16-30 | `OFFSET` is at least every key's length, is 0 for an empty dict, and otherwise equals the length of some key. |
| `AnalysisTools.OffsetIgnoresInsertionOrder` | analysistools.py:27-30 | `OFFSET` depends only on the items, not on their insertion order. |
| `AnalysisTools.PaddedKeyLayout` | analysistools.py:34 | Each padded key is exactly `OFFSET + 3` long. It is `OFFSET + 3 - len(key)` spaces (at least 3) followed by the key, so `rjust` always pads and never returns the key unchanged. |
| `AnalysisTools.Row` | analysistools.py:34 | A printed row is the padded key, then `" : "`, then the item's text. |
| `AnalysisTools.RowLayout` | analysistools.py:34 | A row for a key no longer than `OFFSET` is `OFFSET + 6 + len(text)` long. It has spaces up to the key, the key ending just before column `OFFSET + 3`, the colon at index `OFFSET + 4` between two spaces, and then the item's text. |
| `AnalysisTools.Rows` | analysistools.py:33-34 | There is one row per item. |
| `AnalysisTools.ShowDict` | analysistools.py:17-34 | The title comes first and the header second. Without `__dict__` there are exactly those two lines and `AttributeError`. With `__dict__` there are `2 + len(__dict__)` lines and no exception. |
| `AnalysisTools.ShowDictEmpty` | analysistools.py:17-34 | An empty `__dict__` prints exactly the title and the header, with no rows, and returns normally. |
| `AnalysisTools.ShowDictRows` | analysistools.py:33-34 | After the header come the rows of the items in strictly ascending key order. These are precisely the dict's items, each exactly once. |
| `AnalysisTools.RowsAligned` | analysistools.py:27-34 | Row `k` is the `k`-th smallest item of the dict, laid out in that way for `OFFSET`. |
| `AnalysisTools.ShowDictAligned` | analysistools.py:27-34 | Line `i` of the output after the header is the `(i - 2)`-th smallest item of the dict, laid out in that way. So all keys end in one column and all colons sit at index `OFFSET + 4`. |
| `AnalysisTools.ShowDictIgnoresInsertionOrder` | analysistools.py:27-34 | Two objects with the same name, text and items print the same lines, whatever order the attributes were set in. |
| `AnalysisTools.TwoKeysSorted` | analysistools.py:27-33 | For the dict `{b: 2, a: 1}`, `OFFSET` is 1 and the sorted items are `a` then `b`. |
| `AnalysisTools.ShowDictTwoKeys` | analysistools.py:17-34 | For that dict `show_dict` prints four lines, and the two after the header are `"   a : 1"` then `"   b : 2"`. |

## Left out

- `show_objects`: it reflects over the live `sys.modules` with `inspect`, which has no stable pure meaning.
- `test_stmnt`: it runs arbitrary code with `eval` and catches whatever is raised. That is foreign execution.
- The `__main__` demonstration block: it is glue that calls the three tools.
- Writing to stdout: the model stops at the text of each `print` call. Each call is followed by a newline, and the title's own text begins with `\n`.
- `str(item)`, `str(obj)` and `obj.__name__`: they are taken as given strings. Their computation is arbitrary user code.
- A `name` that is not a `str`: a falsy one (`0`, `False`, `[]`) is treated like `None` and is covered by the fallback. A truthy one raises `TypeError` at the concatenation on line 21, after the title is printed. The model types `name` as a string, so that error is not modelled. The same goes for a non-`str` `__name__`, which raises at line 23.
- Non-`str` keys in `__dict__`: these are possible through `obj.__dict__[1] = ...`. Depending on the key, Python then raises at `len` (line 29), at `sorted` (line 33) or at `rjust` (line 34), with `TypeError` or `AttributeError`. The model's keys are strings.
- Lone surrogate code points in Python strings: Dafny characters are Unicode scalar values.
- The colour escape codes carry no logic. They are kept verbatim as constant prefixes and suffixes.
- A placeholder for values that cannot be stringified, and an error type of its own for objects without attributes: the function has neither. A missing `__dict__` surfaces as Python's own `AttributeError`, after the title and header are printed.
