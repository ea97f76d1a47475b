/**
 The manifest stream of the import secret: `AggregateObjects` prints rendered
 objects one after the other and `SplitYamls` takes the stream apart again.
 */
module ManifestStream {
  import opened Common

  const Separator: string := "\n---\n"

  // ---- splitting, as strings.Split and strings.Replace do it ----

  predicate SepAt(s: string, i: nat) {
    i + 5 <= |s| && s[i..i + 5] == Separator
  }

  predicate HasSep(s: string) {
    exists i: nat | i < |s| :: SepAt(s, i)
  }

  /** A text that swallows the start of a separator printed after it. */
  predicate EndsOpen(s: string) {
    |s| >= 4 && s[|s| - 4..] == "\n---"
  }

  function FirstSep(s: string, i: nat := 0): (r: Option<nat>)
    requires i <= |s|
    ensures r.Some? ==> i <= r.value && SepAt(s, r.value) && forall k: nat | i <= k < r.value :: !SepAt(s, k)
    ensures r.None? ==> forall k: nat | i <= k :: !SepAt(s, k)
    decreases |s| - i
  {
    if i + 5 > |s| then None
    else if s[i..i + 5] == Separator then Some(i)
    else FirstSep(s, i + 1)
  }

  function Split(s: string): (r: seq<string>)
    ensures r != []
    decreases |s|
  {
    match FirstSep(s)
    case None => [s]
    case Some(i) => [s[..i]] + Split(s[i + 5..])
  }

  function DropFirstSep(s: string): (r: string)
  {
    match FirstSep(s)
    case None => s
    case Some(i) => s[..i] + s[i + 5..]
  }

  function SplitYamls(s: string): (r: seq<string>)
    ensures r != []
  {
    Split(DropFirstSep(s))
  }

  // ---- printing ----

  /** Each text preceded by a separator. */
  function Print(docs: seq<string>): (r: string)
  {
    if docs == [] then "" else Separator + docs[0] + Print(docs[1..])
  }

  /** The texts with a separator between each two. */
  function Join(docs: seq<string>): (r: string)
    requires docs != []
  {
    docs[0] + Print(docs[1..])
  }

  lemma {:induction false} PrintConcat(a: seq<string>, b: seq<string>)
    ensures Print(a + b) == Print(a) + Print(b)
  {
    if a == [] {
      assert a + b == b;
    } else {
      PrintConcat(a[1..], b);
      assert (a + b)[1..] == a[1..] + b;
      Regroup(Separator + a[0], Print(a[1..]), Print(b));
    }
  }

  lemma Regroup(a: string, b: string, c: string)
    ensures a + (b + c) == a + b + c
  {
  }

  lemma PrintOne(d: string)
    ensures Print([d]) == Separator + d
  {
    assert [d][1..] == [];
  }

  /** What can be read back: no text holds a separator, and only the last may end in an open one. */
  predicate Readable(docs: seq<string>) {
    && docs != []
    && (forall i | 0 <= i < |docs| :: !HasSep(docs[i]))
    && (forall i | 0 <= i < |docs| - 1 :: !EndsOpen(docs[i]))
  }

  /** The first separator after a readable text is the one that was printed there. */
  lemma SepAfterText(d: string, rest: string)
    requires !HasSep(d) && !EndsOpen(d)
    ensures FirstSep(d + Separator + rest) == Some(|d|)
  {
    var t := d + Separator + rest;
    assert t[|d|..|d| + 5] == Separator;
    assert SepAt(t, |d|);
    forall k: nat | k < |d|
      ensures !SepAt(t, k)
    {
      if k + 5 <= |d| {
        assert t[k..k + 5] == d[k..k + 5];
        assert !SepAt(d, k);
      } else if SepAt(t, k) {
        StraddlingSep(d, rest, k);
      }
    }
  }

  /** A separator that begins in the text and ends in the next one gives an open end. */
  lemma StraddlingSep(d: string, rest: string, k: nat)
    requires k < |d| < k + 5 && SepAt(d + Separator + rest, k)
    ensures EndsOpen(d)
  {
    var t := d + Separator + rest;
    var off := |d| - k;
    assert t[k..k + 5][off] == t[|d|] == Separator[0];
    assert Separator[off] == '\n';
    assert off == 4;
    assert d[k..] == t[k..k + 5][..4] == "\n---";
  }

  lemma SplitOne(d: string)
    requires !HasSep(d)
    ensures Split(d) == [d]
  {
    assert FirstSep(d).None?;
  }

  lemma SplitAfterText(d: string, rest: string)
    requires !HasSep(d) && !EndsOpen(d)
    ensures Split(d + Separator + rest) == [d] + Split(rest)
  {
    var s := d + Separator + rest;
    SepAfterText(d, rest);
    assert s[..|d|] == d && s[|d| + 5..] == rest;
  }

  lemma {:induction false} SplitUndoesJoin(docs: seq<string>)
    requires Readable(docs)
    ensures Split(Join(docs)) == docs
  {
    if |docs| == 1 {
      assert docs[1..] == [] && Join(docs) == docs[0];
      SplitOne(docs[0]);
      assert docs == [docs[0]];
    } else {
      JoinStep(docs);
      SplitAfterText(docs[0], Join(docs[1..]));
      assert forall i | 0 <= i < |docs[1..]| :: docs[1..][i] == docs[i + 1];
      SplitUndoesJoin(docs[1..]);
      assert docs == [docs[0]] + docs[1..];
    }
  }

  lemma HeadSep(t: string)
    ensures DropFirstSep(Separator + t) == t
  {
    var s := Separator + t;
    assert s[0..5] == Separator;
    assert FirstSep(s) == Some(0);
    assert s[..0] + s[5..] == t;
  }

  lemma PrintHead(docs: seq<string>)
    requires docs != []
    ensures Print(docs) == Separator + Join(docs)
  {
    var rest := Print(docs[1..]);
    assert Separator + docs[0] + rest == Separator + (docs[0] + rest);
  }

  lemma JoinStep(docs: seq<string>)
    requires |docs| > 1
    ensures Join(docs) == docs[0] + Separator + Join(docs[1..])
  {
    PrintHead(docs[1..]);
    var rest := Join(docs[1..]);
    assert docs[0] + (Separator + rest) == docs[0] + Separator + rest;
  }

  lemma HeadSepDrops(docs: seq<string>)
    requires docs != []
    ensures DropFirstSep(Print(docs)) == Join(docs)
  {
    PrintHead(docs);
    HeadSep(Join(docs));
  }

  lemma {:induction false} SplitPartsHaveNoSep(s: string)
    ensures forall p | p in Split(s) :: !HasSep(p)
    decreases |s|
  {
    match FirstSep(s) {
      case None =>
      case Some(i) =>
        SplitPartsHaveNoSep(s[i + 5..]);
        forall k: nat | k + 5 <= i
          ensures !SepAt(s[..i], k)
        {
          assert s[..i][k..k + 5] == s[k..k + 5];
          assert !SepAt(s, k);
        }
    }
  }

  /** An open end makes a separator before the printed one. */
  lemma OpenEndMakesEarlySep(d: string, rest: string)
    requires EndsOpen(d)
    ensures SepAt(d + Separator + rest, |d| - 4)
  {
    var t := d + Separator + rest;
    var i := |d| - 4;
    assert t[i..i + 5] == d[i..] + [t[|d|]];
    assert t[|d|] == Separator[0];
  }

  /** If the first text came back, it ended where its separator was printed. */
  lemma FirstTextFound(d: string, rest: string)
    requires Split(d + Separator + rest)[0] == d
    ensures !EndsOpen(d)
    ensures Split(d + Separator + rest) == [d] + Split(rest)
  {
    var s := d + Separator + rest;
    assert s[|d|..|d| + 5] == Separator;
    assert SepAt(s, |d|);
    var i := FirstSep(s).value;
    assert s[..i] == d && i == |d|;
    assert s[i + 5..] == rest;
    if EndsOpen(d) {
      OpenEndMakesEarlySep(d, rest);
    }
  }

  lemma {:induction false} SplitFoundTheTexts(docs: seq<string>)
    requires docs != [] && Split(Join(docs)) == docs
    ensures forall i | 0 <= i < |docs| - 1 :: !EndsOpen(docs[i])
  {
    if |docs| > 1 {
      var rest := Join(docs[1..]);
      JoinStep(docs);
      FirstTextFound(docs[0], rest);
      assert Split(rest) == docs[1..] by {
        assert Split(Join(docs))[1..] == Split(rest);
      }
      SplitFoundTheTexts(docs[1..]);
      assert forall j | 0 < j < |docs| - 1 :: docs[1..][j - 1] == docs[j];
    }
  }

  /** The texts of a stream come back exactly when they are readable. */
  lemma SplitUndoesPrintExactly(docs: seq<string>)
    ensures SplitYamls(Print(docs)) == docs <==> Readable(docs)
  {
    if docs != [] {
      HeadSepDrops(docs);
      if Readable(docs) {
        SplitUndoesJoin(docs);
      }
      if Split(Join(docs)) == docs {
        SplitPartsHaveNoSep(Join(docs));
        SplitFoundTheTexts(docs);
      }
    }
  }

  // ---- string order and sorting ----

  /** Byte order on strings, as Go compares them. */
  predicate LessEq(a: string, b: string) {
    a == [] || (b != [] && (a[0] < b[0] || (a[0] == b[0] && LessEq(a[1..], b[1..]))))
  }

  lemma {:induction false} LessEqTotal(a: string, b: string)
    ensures LessEq(a, b) || LessEq(b, a)
    ensures LessEq(a, b) && LessEq(b, a) ==> a == b
  {
    if a != [] && b != [] && a[0] == b[0] {
      LessEqTotal(a[1..], b[1..]);
      assert a == [a[0]] + a[1..] && b == [b[0]] + b[1..];
    }
  }

  lemma {:induction false} LessEqTransitive(a: string, b: string, c: string)
    requires LessEq(a, b) && LessEq(b, c)
    ensures LessEq(a, c)
  {
    if a != [] && a[0] == b[0] && b[0] == c[0] {
      LessEqTransitive(a[1..], b[1..], c[1..]);
    }
  }

  predicate Sorted(s: seq<string>) {
    forall i, j | 0 <= i < j < |s| :: LessEq(s[i], s[j])
  }

  function Insert(x: string, s: seq<string>): (r: seq<string>)
  {
    if s == [] then [x]
    else if LessEq(x, s[0]) then [x] + s
    else [s[0]] + Insert(x, s[1..])
  }

  function Sort(s: seq<string>): (r: seq<string>)
  {
    if s == [] then [] else Insert(s[0], Sort(s[1..]))
  }

  lemma {:induction false} InsertMembers(x: string, s: seq<string>)
    ensures multiset(Insert(x, s)) == multiset(s) + multiset{x}
  {
    if s != [] {
      assert s == [s[0]] + s[1..];
      InsertMembers(x, s[1..]);
    }
  }

  /** A least element in front keeps a list sorted. */
  lemma LeastFirst(x: string, s: seq<string>)
    requires Sorted(s) && forall y | y in s :: LessEq(x, y)
    ensures Sorted([x] + s)
  {
    var r := [x] + s;
    forall i, j | 0 <= i < j < |r| ensures LessEq(r[i], r[j]) {
      assert r[j] == s[j - 1] && s[j - 1] in s;
      if i > 0 {
        assert r[i] == s[i - 1];
      }
    }
  }

  lemma FirstIsBelow(x: string, s: seq<string>)
    requires s != [] && Sorted(s) && LessEq(x, s[0])
    ensures forall y | y in s :: LessEq(x, y)
  {
    forall y | y in s ensures LessEq(x, y) {
      var j :| 0 <= j < |s| && s[j] == y;
      if j > 0 {
        LessEqTransitive(x, s[0], s[j]);
      }
    }
  }

  lemma InsertedAreThere(x: string, s: seq<string>)
    ensures forall y | y in Insert(x, s) :: y in s || y == x
  {
    InsertMembers(x, s);
    forall y | y in Insert(x, s) ensures y in s || y == x {
      assert y in multiset(Insert(x, s));
    }
  }

  lemma TailSorted(s: seq<string>)
    requires s != [] && Sorted(s)
    ensures Sorted(s[1..]) && forall y | y in s[1..] :: LessEq(s[0], y)
  {
    forall y | y in s[1..] ensures LessEq(s[0], y) {
      var j :| 0 <= j < |s[1..]| && s[1..][j] == y;
      assert s[j + 1] == y;
    }
  }

  lemma {:induction false} InsertSorts(x: string, s: seq<string>)
    requires Sorted(s)
    ensures Sorted(Insert(x, s))
  {
    if s != [] {
      LessEqTotal(x, s[0]);
      if LessEq(x, s[0]) {
        FirstIsBelow(x, s);
        LeastFirst(x, s);
      } else {
        TailSorted(s);
        InsertSorts(x, s[1..]);
        InsertedAreThere(x, s[1..]);
        LeastFirst(s[0], Insert(x, s[1..]));
      }
    }
  }

  lemma {:induction false} SortSorts(s: seq<string>)
    ensures Sorted(Sort(s))
    ensures multiset(Sort(s)) == multiset(s)
  {
    if s != [] {
      SortSorts(s[1..]);
      InsertSorts(s[0], Sort(s[1..]));
      InsertMembers(s[0], Sort(s[1..]));
      assert s == [s[0]] + s[1..];
    }
  }

  lemma SameLength(a: seq<string>, b: seq<string>)
    requires multiset(a) == multiset(b)
    ensures |a| == |b|
  {
    assert |multiset(a)| == |a| && |multiset(b)| == |b|;
  }

  lemma FirstIsLeast(s: seq<string>, x: string)
    requires Sorted(s) && x in multiset(s)
    ensures LessEq(s[0], x)
  {
    var i :| 0 <= i < |s| && s[i] == x;
    LessEqTotal(x, x);
  }

  lemma TailMembers(s: seq<string>)
    requires s != []
    ensures multiset(s[1..]) == multiset(s) - multiset{s[0]}
  {
    assert s == [s[0]] + s[1..];
  }

  lemma FirstsAgree(a: seq<string>, b: seq<string>)
    requires a != [] && b != [] && Sorted(a) && Sorted(b) && multiset(a) == multiset(b)
    ensures a[0] == b[0]
  {
    assert a[0] in multiset(a) && b[0] in multiset(b);
    FirstIsLeast(a, b[0]);
    FirstIsLeast(b, a[0]);
    LessEqTotal(a[0], b[0]);
  }

  /** A sorted list is determined by its members. */
  lemma {:induction false} SortedIsUnique(a: seq<string>, b: seq<string>)
    requires Sorted(a) && Sorted(b) && multiset(a) == multiset(b)
    ensures a == b
  {
    SameLength(a, b);
    if a != [] {
      FirstsAgree(a, b);
      TailMembers(a);
      TailMembers(b);
      TailSorted(a);
      TailSorted(b);
      SortedIsUnique(a[1..], b[1..]);
      assert a == [a[0]] + a[1..] && b == [b[0]] + b[1..];
    }
  }

  // ---- arranging objects by kind ----

  /** What decoding a text says it is; `Nameless` covers texts that do not decode. */
  datatype Kind = NamespaceKind | KlusterletKind | OtherKind | Nameless

  function Pick(objs: seq<string>, kindOf: string -> Kind, k: Kind): (r: seq<string>)
  {
    if objs == [] then []
    else (if kindOf(objs[0]) == k then [objs[0]] else []) + Pick(objs[1..], kindOf, k)
  }

  /** The stream's order: namespaces as given, the others sorted, the last klusterlet behind. */
  function Arranged(objs: seq<string>, kindOf: string -> Kind): (r: seq<string>)
  {
    var klusterlets := Pick(objs, kindOf, KlusterletKind);
    Pick(objs, kindOf, NamespaceKind) + Sort(Pick(objs, kindOf, OtherKind)) +
    if klusterlets == [] || klusterlets[|klusterlets| - 1] == "" then [] else [klusterlets[|klusterlets| - 1]]
  }

  lemma {:induction false} PickAppend(objs: seq<string>, x: string, kindOf: string -> Kind, k: Kind)
    ensures Pick(objs + [x], kindOf, k) == Pick(objs, kindOf, k) + if kindOf(x) == k then [x] else []
  {
    if objs == [] {
      assert [x][1..] == [];
    } else {
      PickAppend(objs[1..], x, kindOf, k);
      assert (objs + [x])[1..] == objs[1..] + [x];
    }
  }

  lemma {:induction false} PickCounts(objs: seq<string>, kindOf: string -> Kind, k: Kind, x: string)
    ensures multiset(Pick(objs, kindOf, k))[x] == if kindOf(x) == k then multiset(objs)[x] else 0
  {
    if objs != [] {
      PickCounts(objs[1..], kindOf, k, x);
      assert objs == [objs[0]] + objs[1..];
    }
  }

  lemma {:induction false} PickLengths(objs: seq<string>, kindOf: string -> Kind)
    ensures |objs| == |Pick(objs, kindOf, NamespaceKind)| + |Pick(objs, kindOf, OtherKind)|
                    + |Pick(objs, kindOf, KlusterletKind)| + |Pick(objs, kindOf, Nameless)|
  {
    if objs != [] {
      PickLengths(objs[1..], kindOf);
    }
  }

  method WriteAll(buffer: string, docs: seq<string>) returns (r: string)
    ensures r == buffer + Print(docs)
  {
    r := buffer;
    assert docs[0..] == docs;
    for i := 0 to |docs|
      invariant r + Print(docs[i..]) == buffer + Print(docs)
    {
      assert docs[i..][1..] == docs[i + 1..];
      r := r + Separator + docs[i];
    }
  }

  /** The loop that sorts the objects out by kind; of several klusterlets the last one stays. */
  method SortOut(objects: seq<string>, kindOf: string -> Kind)
    returns (namespaces: seq<string>, others: seq<string>, klusterlet: string)
    ensures namespaces == Pick(objects, kindOf, NamespaceKind)
    ensures others == Pick(objects, kindOf, OtherKind)
    ensures klusterlet == LastOf(Pick(objects, kindOf, KlusterletKind))
  {
    namespaces, others, klusterlet := [], [], "";
    for i := 0 to |objects|
      invariant namespaces == Pick(objects[..i], kindOf, NamespaceKind)
      invariant others == Pick(objects[..i], kindOf, OtherKind)
      invariant klusterlet == LastOf(Pick(objects[..i], kindOf, KlusterletKind))
    {
      var obj := objects[i];
      assert objects[..i + 1] == objects[..i] + [obj];
      PickAppend(objects[..i], obj, kindOf, NamespaceKind);
      PickAppend(objects[..i], obj, kindOf, OtherKind);
      PickAppend(objects[..i], obj, kindOf, KlusterletKind);
      match kindOf(obj) {
        case NamespaceKind => namespaces := namespaces + [obj];
        case KlusterletKind => klusterlet := obj;
        case Nameless =>
        case OtherKind => others := others + [obj];
      }
    }
    assert objects[..|objects|] == objects;
  }

  method WriteSorted(namespaces: seq<string>, others: seq<string>) returns (r: string)
    ensures r == Print(namespaces + Sort(others))
  {
    r := WriteAll("", namespaces);
    r := WriteAll(r, Sort(others));
    PrintConcat(namespaces, Sort(others));
  }

  method AggregateObjects(objects: seq<string>, kindOf: string -> Kind) returns (r: string)
    ensures r == Print(Arranged(objects, kindOf))
  {
    var namespaces, others, klusterlet := SortOut(objects, kindOf);
    r := WriteSorted(namespaces, others);
    if klusterlet != "" {
      PrintConcat(namespaces + Sort(others), [klusterlet]);
      PrintOne(klusterlet);
      r := WriteAll(r, [klusterlet]);
    } else {
      assert namespaces + Sort(others) + [] == namespaces + Sort(others);
    }
  }

  function LastOf(docs: seq<string>): (r: string)
  {
    if docs == [] then "" else docs[|docs| - 1]
  }

  // ---- the theorems ----

  /** Every object has a kind, and there is at most one klusterlet, which is not empty. */
  predicate NothingDropped(objs: seq<string>, kindOf: string -> Kind) {
    && Pick(objs, kindOf, Nameless) == []
    && |Pick(objs, kindOf, KlusterletKind)| <= 1
    && (|Pick(objs, kindOf, KlusterletKind)| == 1 ==> Pick(objs, kindOf, KlusterletKind)[0] != "")
  }

  lemma ArrangedShape(objs: seq<string>, kindOf: string -> Kind)
    requires NothingDropped(objs, kindOf)
    ensures Arranged(objs, kindOf) ==
            Pick(objs, kindOf, NamespaceKind) + Sort(Pick(objs, kindOf, OtherKind)) + Pick(objs, kindOf, KlusterletKind)
  {
  }

  lemma PartsMakeWhole(objs: seq<string>, kindOf: string -> Kind)
    requires Pick(objs, kindOf, Nameless) == []
    ensures multiset(Pick(objs, kindOf, NamespaceKind)) + multiset(Pick(objs, kindOf, OtherKind))
          + multiset(Pick(objs, kindOf, KlusterletKind)) == multiset(objs)
  {
    forall x {
      PickedOnce(objs, kindOf, x);
    }
  }

  lemma ArrangedMembers(objs: seq<string>, kindOf: string -> Kind)
    requires NothingDropped(objs, kindOf)
    ensures multiset(Arranged(objs, kindOf)) == multiset(objs)
  {
    ArrangedShape(objs, kindOf);
    SortSorts(Pick(objs, kindOf, OtherKind));
    PartsMakeWhole(objs, kindOf);
  }

  /** Every text is picked by exactly one kind. */
  lemma PickedOnce(objs: seq<string>, kindOf: string -> Kind, x: string)
    ensures multiset(objs)[x] == multiset(Pick(objs, kindOf, NamespaceKind))[x] + multiset(Pick(objs, kindOf, OtherKind))[x]
                               + multiset(Pick(objs, kindOf, KlusterletKind))[x] + multiset(Pick(objs, kindOf, Nameless))[x]
  {
    PickCounts(objs, kindOf, NamespaceKind, x);
    PickCounts(objs, kindOf, OtherKind, x);
    PickCounts(objs, kindOf, KlusterletKind, x);
    PickCounts(objs, kindOf, Nameless, x);
  }

  /** The arrangement keeps every object exactly when none is nameless and at most one is a klusterlet. */
  lemma ArrangedKeepsAllExactly(objs: seq<string>, kindOf: string -> Kind)
    ensures multiset(Arranged(objs, kindOf)) == multiset(objs) <==> NothingDropped(objs, kindOf)
  {
    if NothingDropped(objs, kindOf) {
      ArrangedMembers(objs, kindOf);
    }
    if multiset(Arranged(objs, kindOf)) == multiset(objs) {
      SameLength(Arranged(objs, kindOf), objs);
      SameLengthDropsNothing(objs, kindOf);
    }
  }

  lemma SameLengthDropsNothing(objs: seq<string>, kindOf: string -> Kind)
    requires |Arranged(objs, kindOf)| == |objs|
    ensures NothingDropped(objs, kindOf)
  {
    var others := Pick(objs, kindOf, OtherKind);
    PickLengths(objs, kindOf);
    SortSorts(others);
    SameLength(Sort(others), others);
  }

  /** The texts picked are those of the kind, in their order. */
  lemma {:induction false} PickedKind(objs: seq<string>, kindOf: string -> Kind, k: Kind)
    ensures forall d :: d in Pick(objs, kindOf, k) <==> d in objs && kindOf(d) == k
  {
    if objs != [] {
      PickedKind(objs[1..], kindOf, k);
      assert forall d :: d in objs <==> d == objs[0] || d in objs[1..];
    }
  }

  /** The last text of a kind is the last one picked. */
  lemma {:induction false} LastPicked(objs: seq<string>, kindOf: string -> Kind, k: Kind, i: nat)
    requires i < |objs| && kindOf(objs[i]) == k && forall j | i < j < |objs| :: kindOf(objs[j]) != k
    ensures LastOf(Pick(objs, kindOf, k)) == objs[i] && Pick(objs, kindOf, k) != []
  {
    var init, last := objs[..|objs| - 1], objs[|objs| - 1];
    assert objs == init + [last];
    PickAppend(init, last, kindOf, k);
    if i < |init| {
      LastPicked(init, kindOf, k, i);
    }
  }

  /** The klusterlet that ends the stream, if there is one. */
  function Ending(objs: seq<string>, kindOf: string -> Kind): (r: seq<string>)
  {
    var k := LastOf(Pick(objs, kindOf, KlusterletKind));
    if k == "" then [] else [k]
  }

  lemma ArrangedParts(objs: seq<string>, kindOf: string -> Kind)
    ensures Arranged(objs, kindOf) == Pick(objs, kindOf, NamespaceKind) + Sort(Pick(objs, kindOf, OtherKind)) + Ending(objs, kindOf)
    ensures forall d :: d in Pick(objs, kindOf, NamespaceKind) <==> d in objs && kindOf(d).NamespaceKind?
    ensures forall d :: d in Sort(Pick(objs, kindOf, OtherKind)) <==> d in objs && kindOf(d).OtherKind?
    ensures forall d | d in Ending(objs, kindOf) :: kindOf(d).KlusterletKind?
  {
    PickedKind(objs, kindOf, NamespaceKind);
    PickedKind(objs, kindOf, OtherKind);
    PickedKind(objs, kindOf, KlusterletKind);
    var others := Pick(objs, kindOf, OtherKind);
    SortSorts(others);
    assert forall d :: d in Sort(others) <==> d in multiset(others);
  }

  /** Of three parts one after the other, what one place is in tells what an earlier one is in. */
  lemma PlacesInParts(a: seq<string>, b: seq<string>, c: seq<string>, i: nat, j: nat)
    requires i < j < |a + b + c| && |c| <= 1
    ensures (a + b + c)[i] in a || (a + b + c)[i] in b
    ensures (a + b + c)[i] in a || (a + b + c)[j] in b || (a + b + c)[j] in c
    ensures (a + b + c)[i] in a || (a + b + c)[j] in c || (i >= |a| && j < |a + b| && (a + b + c)[i] == b[i - |a|] && (a + b + c)[j] == b[j - |a|])
  {
  }

  /** The stream holds every namespace and every other object, and of the klusterlets at most one. */
  lemma ArrangedHolds(objs: seq<string>, kindOf: string -> Kind, d: string)
    ensures d in Arranged(objs, kindOf) && !kindOf(d).KlusterletKind?
            <==> d in objs && (kindOf(d).NamespaceKind? || kindOf(d).OtherKind?)
  {
    ArrangedParts(objs, kindOf);
  }

  /** Its order: namespaces first, the other objects sorted, a klusterlet only at the end. */
  lemma ArrangedInOrder(objs: seq<string>, kindOf: string -> Kind, i: nat, j: nat)
    requires i < j < |Arranged(objs, kindOf)|
    ensures var d, e := Arranged(objs, kindOf)[i], Arranged(objs, kindOf)[j];
            && !kindOf(d).KlusterletKind?
            && (kindOf(e).NamespaceKind? ==> kindOf(d).NamespaceKind?)
            && (kindOf(d).OtherKind? && kindOf(e).OtherKind? ==> LessEq(d, e))
  {
    ArrangedParts(objs, kindOf);
    SortSorts(Pick(objs, kindOf, OtherKind));
    PlacesInParts(Pick(objs, kindOf, NamespaceKind), Sort(Pick(objs, kindOf, OtherKind)), Ending(objs, kindOf), i, j);
  }

  /** The last klusterlet given ends the stream. */
  lemma LastKlusterletEnds(objs: seq<string>, kindOf: string -> Kind, i: nat)
    requires i < |objs| && kindOf(objs[i]).KlusterletKind? && objs[i] != ""
    requires forall j | i < j < |objs| :: !kindOf(objs[j]).KlusterletKind?
    ensures var r := Arranged(objs, kindOf); r != [] && r[|r| - 1] == objs[i]
  {
    LastPicked(objs, kindOf, KlusterletKind, i);
  }

  /**
   Print and parse undo each other: the aggregate with files appended splits into
   the arranged objects followed by the files, nothing lost, merged or duplicated.
   */
  lemma StreamRoundTrip(objs: seq<string>, files: seq<string>, kindOf: string -> Kind)
    requires Readable(Arranged(objs, kindOf) + files)
    ensures SplitYamls(Print(Arranged(objs, kindOf)) + Print(files)) == Arranged(objs, kindOf) + files
    ensures NothingDropped(objs, kindOf) ==>
              multiset(SplitYamls(Print(Arranged(objs, kindOf)) + Print(files))) == multiset(objs) + multiset(files)
  {
    PrintConcat(Arranged(objs, kindOf), files);
    SplitUndoesPrintExactly(Arranged(objs, kindOf) + files);
    if NothingDropped(objs, kindOf) {
      ArrangedMembers(objs, kindOf);
    }
  }

  /** The same from the side of the inputs: texts that are readable one by one make a readable stream. */
  lemma InputsReadable(objs: seq<string>, files: seq<string>, kindOf: string -> Kind)
    requires forall d | d in objs || d in files :: !HasSep(d) && !EndsOpen(d)
    requires NothingDropped(objs, kindOf) && objs + files != []
    ensures Readable(Arranged(objs, kindOf) + files)
  {
    ArrangedMembers(objs, kindOf);
    SameLength(Arranged(objs, kindOf), objs);
    forall i | 0 <= i < |Arranged(objs, kindOf)|
      ensures Arranged(objs, kindOf)[i] in objs
    {
      assert Arranged(objs, kindOf)[i] in multiset(objs);
    }
  }

  /** Two renderings of the same objects give the same bytes if their namespaces come in the same order. */
  lemma AggregateIsCanonical(a: seq<string>, b: seq<string>, kindOf: string -> Kind)
    requires multiset(a) == multiset(b)
    requires Pick(a, kindOf, NamespaceKind) == Pick(b, kindOf, NamespaceKind)
    requires |Pick(a, kindOf, KlusterletKind)| <= 1
    ensures Print(Arranged(a, kindOf)) == Print(Arranged(b, kindOf))
  {
    SamePicks(a, b, kindOf, OtherKind);
    SamePicks(a, b, kindOf, KlusterletKind);
    var oa, ob := Pick(a, kindOf, OtherKind), Pick(b, kindOf, OtherKind);
    SortSorts(oa);
    SortSorts(ob);
    SortedIsUnique(Sort(oa), Sort(ob));
    AtMostOneSame(Pick(a, kindOf, KlusterletKind), Pick(b, kindOf, KlusterletKind));
  }

  lemma AtMostOneSame(a: seq<string>, b: seq<string>)
    requires multiset(a) == multiset(b) && |a| <= 1
    ensures a == b
  {
    SameLength(a, b);
    if a != [] {
      assert a[0] in multiset(b);
    }
  }

  lemma SamePicks(a: seq<string>, b: seq<string>, kindOf: string -> Kind, k: Kind)
    requires multiset(a) == multiset(b)
    ensures multiset(Pick(a, kindOf, k)) == multiset(Pick(b, kindOf, k))
  {
    forall x
      ensures multiset(Pick(a, kindOf, k))[x] == multiset(Pick(b, kindOf, k))[x]
    {
      PickCounts(a, kindOf, k, x);
      PickCounts(b, kindOf, k, x);
    }
  }
}
