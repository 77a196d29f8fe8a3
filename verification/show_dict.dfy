/**
 `analysistools.show_dict(obj, name=None)`: print a title, a header naming
 the object, and one line per attribute of `obj.__dict__`, sorted by key,
 with every key right-aligned to the longest one.

 The function is modelled by the sequence of texts it hands to `print`,
 one per call (each is followed by a newline on stdout), together with the
 exception it raises, if any.
 */
module AnalysisTools {
  import opened PyStr
  import opened PyDict

  datatype Option<T> = None | Some(value: T)

  /** What `show_dict` reads from the object it is given. */
  datatype PyObject = PyObject(
    dunderName: Option<string>,  // `obj.__name__` when `hasattr(obj, '__name__')`
    text: string,                // `str(obj)`
    attrs: Option<Dict>          // `obj.__dict__`, absent for e.g. an `int`
  )

  /** Reading `obj.__dict__` on an object that has none. */
  datatype PyException = AttributeError

  /** The texts passed to `print`, in order, and how the call ended. */
  datatype Transcript = Transcript(lines: seq<string>, raised: Option<PyException>)

  // Terminal colour escapes, kept verbatim as opaque prefixes and suffixes.
  const Green: string := "\U{1B}[32m"
  const Blue: string := "\U{1B}[01;34m"
  const EndColour: string := "\U{1B}[0m"

  /** The first text printed, whatever the object. */
  const Title: string := Blue + "\nanalysistools.show_dict" + EndColour

  const DictSuffix: string := ".__dict__"

  /** Python truthiness of the `name` argument (`None` or a `str`). */
  predicate Truthy(name: Option<string>)
  {
    name.Some? && name.value != ""
  }

  /** The object's label: `name` if truthy, else `obj.__name__` if the
      object has one, else `str(obj)`. */
  function Label(obj: PyObject, name: Option<string>): string
  {
    if Truthy(name) then name.value
    else if obj.dunderName.Some? then obj.dunderName.value
    else obj.text
  }

  /** An empty `name` is falsy, so it selects the same label as no name. */
  lemma EmptyNameFallsThrough(obj: PyObject)
    ensures Label(obj, Some("")) == Label(obj, None)
    ensures obj.dunderName.Some? ==> Label(obj, Some("")) == obj.dunderName.value
    ensures obj.dunderName.None? ==> Label(obj, Some("")) == obj.text
  {
  }

  /** The green header line naming the inspected object. */
  function Header(objLabel: string): string
  {
    Green + objLabel + DictSuffix + EndColour
  }

  /** Reads the label back out of a header line, if it is one: any line
      read as a header is exactly the header of the label read. */
  function HeaderLabel(line: string): (r: Option<string>)
    ensures r.Some? ==> |line| == |Green| + |r.value| + |DictSuffix| + |EndColour|
    ensures r.Some? ==> Header(r.value) == line
  {
    var tail := DictSuffix + EndColour;
    if |Green| + |tail| <= |line|
       && line[..|Green|] == Green
       && line[|line| - |tail|..] == tail
    then
      var mid := line[|Green|..|line| - |tail|];
      assert line == line[..|Green|] + mid + line[|line| - |tail|..];
      Some(mid)
    else None
  }

  /** The header always ends in `.__dict__` (before the colour reset) and
      names exactly one label: reading it back gives the label again. */
  lemma HeaderRoundTrip(objLabel: string)
    ensures Header(objLabel)[|Header(objLabel)| - |DictSuffix + EndColour|..] == DictSuffix + EndColour
    ensures HeaderLabel(Header(objLabel)) == Some(objLabel)
  {
    var h := Header(objLabel);
    var tail := DictSuffix + EndColour;
    assert h == Green + objLabel + tail;
    assert h[..|Green|] == Green;
    assert h[|h| - |tail|..] == tail;
    assert h[|Green|..|h| - |tail|] == objLabel;
  }

  /** The loop that computes `OFFSET`, run over the items in insertion
      order from the running maximum `acc`. */
  function OffsetFrom(d: seq<Entry>, acc: nat): (r: nat)
    ensures acc <= r
    ensures forall i :: 0 <= i < |d| ==> |d[i].key| <= r
    ensures r == acc || exists i :: 0 <= i < |d| && r == |d[i].key|
    decreases |d|
  {
    if |d| == 0 then acc
    else
      var r := OffsetFrom(d[1..], if |d[0].key| > acc then |d[0].key| else acc);
      assert forall i :: 0 < i < |d| ==> d[i] == d[1..][i - 1];
      r
  }

  /** `OFFSET`: the length of the longest key, 0 when there are no keys. */
  function Offset(d: seq<Entry>): (r: nat)
    ensures forall i :: 0 <= i < |d| ==> |d[i].key| <= r
    ensures |d| == 0 ==> r == 0
    ensures |d| > 0 ==> exists i :: 0 <= i < |d| && r == |d[i].key|
  {
    var r := OffsetFrom(d, 0);
    assert |d| > 0 && r == 0 ==> |d[0].key| == r;
    r
  }

  /** `OFFSET` depends only on which items there are, not their order. */
  lemma OffsetIgnoresInsertionOrder(d1: seq<Entry>, d2: seq<Entry>)
    requires multiset(d1) == multiset(d2)
    ensures Offset(d1) == Offset(d2)
  {
    assert |d1| == |multiset(d1)| == |multiset(d2)| == |d2|;
    forall i | 0 <= i < |d1| ensures |d1[i].key| <= Offset(d2) {
      assert d1[i] in multiset(d2);
    }
    forall i | 0 <= i < |d2| ensures |d2[i].key| <= Offset(d1) {
      assert d2[i] in multiset(d1);
    }
  }

  /** `key.rjust(OFFSET+3, ' ')`. */
  function PaddedKey(key: string, offset: nat): string
  {
    RJust(key, offset + 3, ' ')
  }

  /** Every key of the dict is padded to exactly `OFFSET + 3` characters:
      `OFFSET + 3 - len(key)` spaces, at least three, then the key itself,
      so `rjust` never hands the key back unchanged and every key ends in
      the same column. */
  lemma PaddedKeyLayout(key: string, offset: nat)
    requires |key| <= offset
    ensures |PaddedKey(key, offset)| == offset + 3
    ensures PaddedKey(key, offset) != key
    ensures PaddedKey(key, offset) == Repeat(' ', offset + 3 - |key|) + key
    ensures offset + 3 - |key| >= 3
  {
  }

  /** The text of `print(key.rjust(OFFSET+3, ' '), ':', item)`. */
  function Row(e: Entry, offset: nat): (r: string)
    ensures r == PaddedKey(e.key, offset) + " : " + e.value
  {
    var p := PaddedKey(e.key, offset);
    ColonSeparator(p, e.value);
    PrintText([p, ":", e.value])
  }

  /** `print` puts one space on each side of the `':'` argument. */
  lemma ColonSeparator(p: string, v: string)
    ensures PrintText([p, ":", v]) == p + " : " + v
  {
    PrintThree(p, ":", v);
    assert p + " " + ":" + " " + v == p + " : " + v;
  }

  /** A row is the padded key, `" : "`, then the item's text; the colon is
      always at index `OFFSET + 4`, and the key ends at `OFFSET + 3`. */
  lemma RowLayout(e: Entry, offset: nat)
    requires |e.key| <= offset
    ensures |Row(e, offset)| == offset + 6 + |e.value|
    ensures AlignedRow(Row(e, offset), offset, e)
  {
  }

  /** The rows printed for a dict: one per item, in ascending key order. */
  function Rows(d: Dict): (r: seq<string>)
    ensures |r| == |d|
    ensures forall i :: 0 <= i < |r| ==> r[i] == Row(SortByKey(d)[i], Offset(d))
  {
    var s := SortByKey(d);
    var offset := Offset(d);
    seq(|s|, i requires 0 <= i < |s| => Row(s[i], offset))
  }

  /** `show_dict(obj, name)`: the title and the header are printed first;
      then reading `obj.__dict__` either raises `AttributeError` or yields
      the items to print. */
  function ShowDict(obj: PyObject, name: Option<string>): (t: Transcript)
    ensures |t.lines| >= 2
    ensures t.lines[0] == Title
    ensures t.lines[1] == Header(Label(obj, name))
    ensures t.raised.Some? <==> obj.attrs.None?
    ensures obj.attrs.None? ==> |t.lines| == 2
    ensures obj.attrs.Some? ==> |t.lines| == 2 + |obj.attrs.value|
  {
    var head := [Title, Header(Label(obj, name))];
    match obj.attrs
    case None => Transcript(head, Some(AttributeError))
    case Some(d) => Transcript(head + Rows(d), None)
  }

  /** The label read back off the printed header is `name` when `name` is
      truthy (whether or not the object has a `__name__`), otherwise the
      object's `__name__` when it has one, otherwise `str(obj)`; this holds
      whether or not reading `__dict__` later fails. */
  lemma ShowDictHeader(obj: PyObject, name: Option<string>)
    ensures var shown := HeaderLabel(ShowDict(obj, name).lines[1]);
            && (Truthy(name) ==> shown == Some(name.value))
            && (!Truthy(name) && obj.dunderName.Some? ==> shown == Some(obj.dunderName.value))
            && (!Truthy(name) && obj.dunderName.None? ==> shown == Some(obj.text))
  {
    HeaderRoundTrip(Label(obj, name));
  }

  /** An object with an empty `__dict__` prints exactly the title and the
      header, and returns normally. */
  lemma ShowDictEmpty(obj: PyObject, name: Option<string>)
    requires obj.attrs.Some? && |obj.attrs.value| == 0
    ensures ShowDict(obj, name) == Transcript([Title, Header(Label(obj, name))], None)
  {
  }

  /** Every printed row belongs to exactly one item and every item gets a
      row: after the header come the items, strictly ascending by key, each
      as its aligned row, and they are precisely the items of the dict. */
  lemma ShowDictRows(obj: PyObject, name: Option<string>)
    requires obj.attrs.Some?
    ensures var d := obj.attrs.value;
            var t := ShowDict(obj, name);
            var s := SortByKey(d);
            && t.raised == None
            && StrictlyAscending(s)
            && multiset(s) == multiset(d)
            && t.lines[2..] == seq(|s|, i requires 0 <= i < |s| => Row(s[i], Offset(d)))
  {
  }

  /** `line` is item `e` laid out for `offset`: spaces up to the key, the
      key ending just before column `offset + 3`, the colon at index
      `offset + 4` between two spaces, then the item's text. */
  ghost predicate AlignedRow(line: string, offset: nat, e: Entry)
  {
    && |e.key| <= offset
    && offset + 6 <= |line|
    && (forall j :: 0 <= j < offset + 3 - |e.key| ==> line[j] == ' ')
    && line[offset + 3 - |e.key|..offset + 3] == e.key
    && line[offset + 3] == ' ' && line[offset + 4] == ':' && line[offset + 5] == ' '
    && line[offset + 6..] == e.value
  }

  /** Row `k` is the `k`-th smallest item, an item of the dict, laid out
      for `OFFSET`. */
  lemma {:induction false} RowsAligned(d: Dict, k: nat)
    requires k < |d|
    ensures SortByKey(d)[k] in d
    ensures AlignedRow(Rows(d)[k], Offset(d), SortByKey(d)[k])
  {
    var e := SortByKey(d)[k];
    assert e in multiset(d);
    RowLayout(e, Offset(d));
  }

  /** The same, read off the output of `show_dict`: every line after the
      header is an item of the dict aligned on the colon at `OFFSET + 4`. */
  lemma {:induction false} ShowDictAligned(obj: PyObject, name: Option<string>, i: nat)
    requires obj.attrs.Some?
    requires 2 <= i < 2 + |obj.attrs.value|
    ensures SortByKey(obj.attrs.value)[i - 2] in obj.attrs.value
    ensures AlignedRow(ShowDict(obj, name).lines[i], Offset(obj.attrs.value), SortByKey(obj.attrs.value)[i - 2])
  {
    ShowDictLine(obj, name, i);
    RowsAligned(obj.attrs.value, i - 2);
  }

  /** Line `i` of the output is row `i - 2`. */
  lemma ShowDictLine(obj: PyObject, name: Option<string>, i: nat)
    requires obj.attrs.Some?
    requires 2 <= i < 2 + |obj.attrs.value|
    ensures ShowDict(obj, name).lines[i] == Rows(obj.attrs.value)[i - 2]
  {
    var lines := ShowDict(obj, name).lines;
    ShowDictTail(obj, name);
    assert lines[2..][i - 2] == lines[i];
  }

  lemma ShowDictTail(obj: PyObject, name: Option<string>)
    requires obj.attrs.Some?
    ensures ShowDict(obj, name).lines[2..] == Rows(obj.attrs.value)
  {
  }

  /** The order in which attributes were set never shows in the output:
      two objects whose dicts hold the same items print the same lines. */
  lemma ShowDictIgnoresInsertionOrder(obj1: PyObject, obj2: PyObject, name: Option<string>)
    requires obj1.dunderName == obj2.dunderName && obj1.text == obj2.text
    requires obj1.attrs.Some? && obj2.attrs.Some?
    requires multiset(obj1.attrs.value) == multiset(obj2.attrs.value)
    ensures ShowDict(obj1, name) == ShowDict(obj2, name)
  {
    SortIgnoresInsertionOrder(obj1.attrs.value, obj2.attrs.value);
    OffsetIgnoresInsertionOrder(obj1.attrs.value, obj2.attrs.value);
  }

  /** A dict set as `{b: 2, a: 1}` prints `a` before `b`, each key after
      three spaces (the longest key has length 1), and the item after
      `" : "`. */
  lemma ShowDictTwoKeys(name: Option<string>)
    ensures var obj := PyObject(None, "<obj>", Some([Entry("b", "2"), Entry("a", "1")]));
            && |ShowDict(obj, name).lines| == 4
            && ShowDict(obj, name).lines[2] == "   a : 1"
            && ShowDict(obj, name).lines[3] == "   b : 2"
  {
    var obj := PyObject(None, "<obj>", Some([Entry("b", "2"), Entry("a", "1")]));
    ShowDictLine(obj, name, 2);
    ShowDictLine(obj, name, 3);
    TwoKeysRow(0, 'a', '1');
    TwoKeysRow(1, 'b', '2');
  }

  /** For that dict `OFFSET` is 1, and sorting puts `a` first. */
  lemma TwoKeysSorted()
    ensures var d: Dict := [Entry("b", "2"), Entry("a", "1")];
            Offset(d) == 1 && SortByKey(d) == [Entry("a", "1"), Entry("b", "2")]
  {
  }

  /** Row `k` of that dict is the `k`-th of `a`, `b`, padded to width 4. */
  lemma TwoKeysRow(k: nat, key: char, v: char)
    requires k < 2 && [Entry("a", "1"), Entry("b", "2")][k] == Entry([key], [v])
    ensures Rows([Entry("b", "2"), Entry("a", "1")])[k] == [' ', ' ', ' ', key, ' ', ':', ' ', v]
  {
    var d: Dict := [Entry("b", "2"), Entry("a", "1")];
    TwoKeysSorted();
    OneCharRow(key, v);
    assert Rows(d)[k] == Row(Entry([key], [v]), 1);
  }

  /** With `OFFSET` 1, a one-character key gets three spaces of padding. */
  lemma OneCharRow(k: char, v: char)
    ensures Row(Entry([k], [v]), 1) == [' ', ' ', ' ', k, ' ', ':', ' ', v]
  {
  }
}
