/**
 The merge of one YAML tree into another: the result means what `want` means and
 keeps the layout of `into`. Texts are of any type `T` with equality.
 */
module YamlMerge {
  datatype Comments<T> = Comments(head: T, line: T, foot: T)

  /** A node without aliases. `form` stands for its tag, quoting and style. */
  datatype Node<T> =
    | Scalar(form: T, comments: Comments<T>, text: T)
    | Sequence(form: T, comments: Comments<T>, items: seq<Node<T>>)
    | Mapping(form: T, comments: Comments<T>, entries: seq<Entry<T>>)

  /** A key node and the value beside it; a key is a scalar, known by its text. */
  datatype Entry<T> = Entry(form: T, comments: Comments<T>, key: T, value: Node<T>)

  // ------------------------------------------------------------------
  // Looking up a key
  // ------------------------------------------------------------------

  /** Where mappingValue finds a key: its first place, or the end when it is missing. */
  function Find<T(==)>(entries: seq<Entry<T>>, key: T): (i: nat)
    ensures i <= |entries|
    ensures i < |entries| ==> entries[i].key == key
    ensures forall j :: 0 <= j < i ==> entries[j].key != key
    decreases |entries|
  {
    FindFrom(entries, key, 0)
  }

  function FindFrom<T(==)>(entries: seq<Entry<T>>, key: T, from: nat): (i: nat)
    requires from <= |entries|
    ensures from <= i <= |entries|
    ensures i < |entries| ==> entries[i].key == key
    ensures forall j :: from <= j < i ==> entries[j].key != key
    decreases |entries| - from
  {
    if from == |entries| || entries[from].key == key then from else FindFrom(entries, key, from + 1)
  }

  predicate Has<T(==)>(entries: seq<Entry<T>>, key: T) { Find(entries, key) < |entries| }

  function EntryOf<T(==)>(entries: seq<Entry<T>>, key: T): Entry<T>
    requires Has(entries, key)
  {
    entries[Find(entries, key)]
  }

  function Value<T(==)>(entries: seq<Entry<T>>, key: T): Node<T>
    requires Has(entries, key)
  {
    EntryOf(entries, key).value
  }

  ghost predicate Distinct<T>(entries: seq<Entry<T>>) {
    forall i, j :: 0 <= i < j < |entries| ==> entries[i].key != entries[j].key
  }

  lemma HasAt<T>(entries: seq<Entry<T>>, i: nat)
    requires i < |entries|
    ensures Has(entries, entries[i].key)
    ensures Distinct(entries) ==> EntryOf(entries, entries[i].key) == entries[i]
  {
  }

  // ------------------------------------------------------------------
  // The merge
  // ------------------------------------------------------------------

  function Size<T>(node: Node<T>): nat { if node.Mapping? then |node.entries| + 1 else 0 }

  function Merge<T(==)>(into: Node<T>, want: Node<T>): Node<T>
    decreases into, Size(into)
  {
    if into.Mapping? && want.Mapping? then
      into.(entries := Appended(Kept(into, want.entries, |into.entries|), want.entries, |want.entries|))
    else if into.Scalar? && want.Scalar? && into.text == want.text then into
    else want.(comments := into.comments)
  }

  /** Those of the first `n` entries whose key is still wanted, their values merged. */
  function Kept<T(==)>(into: Node<T>, want: seq<Entry<T>>, n: nat): seq<Entry<T>>
    requires into.Mapping? && n <= |into.entries|
    decreases into, n
  {
    if n == 0 then []
    else
      var entry := into.entries[n - 1];
      if Has(want, entry.key) then Kept(into, want, n - 1) + [entry.(value := Merge(entry.value, Value(want, entry.key)))]
      else Kept(into, want, n - 1)
  }

  /** The entries, then those of the first `n` wanted ones whose key is not there yet. */
  function Appended<T(==)>(entries: seq<Entry<T>>, want: seq<Entry<T>>, n: nat): seq<Entry<T>>
    requires n <= |want|
  {
    if n == 0 then entries
    else
      var before := Appended(entries, want, n - 1);
      if Has(before, want[n - 1].key) then before else before + [want[n - 1]]
  }

  /** The merge as the source runs it. */
  method MergeNode<T(==)>(into: Node<T>, want: Node<T>) returns (r: Node<T>)
    ensures r == Merge(into, want)
    decreases into, 1
  {
    if into.Mapping? && want.Mapping? {
      var entries := Compact(into, want.entries);
      entries := Append(entries, want.entries);
      r := into.(entries := entries);
    } else if into.Scalar? && want.Scalar? && into.text == want.text {
      r := into;
    } else {
      r := want.(comments := into.comments);
    }
  }

  /** The first loop: the kept entries are moved up in place over the dropped ones. */
  method Compact<T(==)>(into: Node<T>, want: seq<Entry<T>>) returns (entries: seq<Entry<T>>)
    requires into.Mapping?
    ensures entries == Kept(into, want, |into.entries|)
    decreases into, 0
  {
    var content := new Entry<T>[|into.entries|](i requires 0 <= i < |into.entries| => into.entries[i]);
    var kept := 0;
    for i := 0 to content.Length
      invariant kept <= i && content[i..] == into.entries[i..]
      invariant content[..kept] == Kept(into, want, i)
    {
      var entry := content[i];
      assert entry == into.entries[i];
      var at := Find(want, entry.key);
      if at < |want| {
        var value := MergeNode(entry.value, want[at].value);
        content[kept] := entry.(value := value);
        kept := kept + 1;
      }
    }
    entries := content[..kept];
  }

  /** The second loop: the wanted entries whose key is not there yet. */
  method Append<T(==)>(kept: seq<Entry<T>>, want: seq<Entry<T>>) returns (entries: seq<Entry<T>>)
    ensures entries == Appended(kept, want, |want|)
  {
    entries := kept;
    for i := 0 to |want|
      invariant entries == Appended(kept, want, i)
    {
      if Find(entries, want[i].key) == |entries| {
        entries := entries + [want[i]];
      }
    }
  }

  // ------------------------------------------------------------------
  // What a merged mapping holds
  // ------------------------------------------------------------------

  /** What becomes of an entry whose key is still wanted. */
  function Updated<T(==)>(entry: Entry<T>, want: seq<Entry<T>>): Entry<T>
    requires Has(want, entry.key)
  {
    entry.(value := Merge(entry.value, Value(want, entry.key)))
  }

  lemma {:induction false} KeptHolds<T>(into: Node<T>, want: seq<Entry<T>>, n: nat, key: T)
    requires into.Mapping? && n <= |into.entries| && Distinct(into.entries)
    ensures Distinct(Kept(into, want, n))
    ensures Has(Kept(into, want, n), key) <==> Find(into.entries, key) < n && Has(want, key)
    ensures Has(Kept(into, want, n), key) ==> EntryOf(Kept(into, want, n), key) == Updated(EntryOf(into.entries, key), want)
    decreases n
  {
    if n > 0 {
      var entry := into.entries[n - 1];
      KeptHolds(into, want, n - 1, key);
      KeptHolds(into, want, n - 1, entry.key);
      HasAt(into.entries, n - 1);
      if Has(want, entry.key) {
        OneMoreEntry(Kept(into, want, n - 1), Updated(entry, want), key);
      }
    }
  }

  /** An entry with a new key leaves every other key where it was. */
  lemma OneMoreEntry<T>(entries: seq<Entry<T>>, entry: Entry<T>, key: T)
    requires Distinct(entries) && !Has(entries, entry.key)
    ensures Distinct(entries + [entry])
    ensures Has(entries + [entry], key) <==> Has(entries, key) || key == entry.key
    ensures Has(entries, key) ==> EntryOf(entries + [entry], key) == EntryOf(entries, key)
    ensures key == entry.key ==> EntryOf(entries + [entry], key) == entry
  {
    var more := entries + [entry];
    assert more[|entries|] == entry;
    assert forall j :: 0 <= j < |entries| ==> more[j] == entries[j];
    HasAt(more, |entries|);
    if Has(entries, key) {
      HasAt(more, Find(entries, key));
    }
  }

  lemma {:induction false} AppendedHolds<T>(entries: seq<Entry<T>>, want: seq<Entry<T>>, n: nat, key: T)
    requires n <= |want| && Distinct(entries) && Distinct(want)
    ensures Distinct(Appended(entries, want, n))
    ensures Has(Appended(entries, want, n), key) <==> Has(entries, key) || Find(want, key) < n
    ensures Has(entries, key) ==> EntryOf(Appended(entries, want, n), key) == EntryOf(entries, key)
    ensures !Has(entries, key) && Find(want, key) < n ==> EntryOf(Appended(entries, want, n), key) == EntryOf(want, key)
    decreases n
  {
    if n > 0 {
      AppendedHolds(entries, want, n - 1, key);
      AppendedHolds(entries, want, n - 1, want[n - 1].key);
      HasAt(want, n - 1);
      var before := Appended(entries, want, n - 1);
      if !Has(before, want[n - 1].key) {
        OneMoreEntry(before, want[n - 1], key);
      }
    }
  }

  /**
   The merged mapping has exactly the wanted keys. One the file had keeps its own
   key node, comments included, beside the merged value; a new one is as wanted.
   */
  lemma MergedMapping<T>(into: Node<T>, want: Node<T>, key: T)
    requires into.Mapping? && want.Mapping? && Distinct(into.entries) && Distinct(want.entries)
    ensures Distinct(Merge(into, want).entries)
    ensures Has(Merge(into, want).entries, key) <==> Has(want.entries, key)
    ensures Has(want.entries, key) ==>
            EntryOf(Merge(into, want).entries, key) ==
            if Has(into.entries, key) then Updated(EntryOf(into.entries, key), want.entries) else EntryOf(want.entries, key)
  {
    KeptHolds(into, want.entries, |into.entries|, key);
    AppendedHolds(Kept(into, want.entries, |into.entries|), want.entries, |want.entries|, key);
  }

  /** The keys of the first `n` entries, in order, that `other` has, or has not. */
  function KeysIn<T(==)>(entries: seq<Entry<T>>, other: seq<Entry<T>>, has: bool, n: nat): seq<T>
    requires n <= |entries|
  {
    if n == 0 then []
    else if Has(other, entries[n - 1].key) == has then KeysIn(entries, other, has, n - 1) + [entries[n - 1].key]
    else KeysIn(entries, other, has, n - 1)
  }

  function KeyOrder<T>(entries: seq<Entry<T>>): (keys: seq<T>)
    ensures |keys| == |entries| && forall i :: 0 <= i < |keys| ==> keys[i] == entries[i].key
  {
    seq(|entries|, i requires 0 <= i < |entries| => entries[i].key)
  }

  lemma {:induction false} KeptOrder<T>(into: Node<T>, want: seq<Entry<T>>, n: nat)
    requires into.Mapping? && n <= |into.entries|
    ensures KeyOrder(Kept(into, want, n)) == KeysIn(into.entries, want, true, n)
    decreases n
  {
    if n > 0 {
      KeptOrder(into, want, n - 1);
    }
  }

  lemma {:induction false} AppendedOrder<T>(into: Node<T>, want: seq<Entry<T>>, n: nat)
    requires into.Mapping? && Distinct(into.entries) && Distinct(want) && n <= |want|
    ensures var kept := Kept(into, want, |into.entries|);
            KeyOrder(Appended(kept, want, n)) == KeyOrder(kept) + KeysIn(want, into.entries, false, n)
    decreases n
  {
    if n > 0 {
      var kept, key := Kept(into, want, |into.entries|), want[n - 1].key;
      AppendedOrder(into, want, n - 1);
      HasAt(want, n - 1);
      KeptHolds(into, want, |into.entries|, key);
      AppendedHolds(kept, want, n - 1, key);
    }
  }

  /** The keys that survive stand in the file's order, and the new ones follow in the wanted order. */
  lemma MergedKeyOrder<T>(into: Node<T>, want: Node<T>)
    requires into.Mapping? && want.Mapping? && Distinct(into.entries) && Distinct(want.entries)
    ensures KeyOrder(Merge(into, want).entries) ==
            KeysIn(into.entries, want.entries, true, |into.entries|) + KeysIn(want.entries, into.entries, false, |want.entries|)
  {
    KeptOrder(into, want.entries, |into.entries|);
    AppendedOrder(into, want.entries, |want.entries|);
  }

  // ------------------------------------------------------------------
  // Meaning
  // ------------------------------------------------------------------

  /** What a tree decodes to. */
  datatype Meaning<T, V> = Single(value: V) | List(items: seq<Meaning<T, V>>) | Table(fields: map<T, Meaning<T, V>>)

  /** What a scalar's form and text decode to. */
  type Reader<!T, V> = (T, T) -> V

  /** The text alone, quoted or not. */
  function AsText<T>(form: T, text: T): T { text }

  function Keys<T(==)>(entries: seq<Entry<T>>): set<T> { set i | 0 <= i < |entries| :: entries[i].key }

  function Means<T(==), V>(node: Node<T>, read: Reader<T, V>): Meaning<T, V>
    decreases node
  {
    match node
    case Scalar(form, _, text) => Single(read(form, text))
    case Sequence(_, _, items) => List(seq(|items|, i requires 0 <= i < |items| => Means(items[i], read)))
    case Mapping(_, _, entries) =>
      Table(map key | key in Keys(entries) :: HasKey(entries, key); Means(entries[Find(entries, key)].value, read))
  }

  lemma HasKey<T>(entries: seq<Entry<T>>, key: T)
    ensures key in Keys(entries) <==> Has(entries, key)
  {
  }

  /** Every mapping, at any depth, has distinct keys. */
  ghost predicate Proper<T>(node: Node<T>) {
    match node
    case Scalar(_, _, _) => true
    case Sequence(_, _, items) => forall i :: 0 <= i < |items| ==> Proper(items[i])
    case Mapping(_, _, entries) => Distinct(entries) && forall i :: 0 <= i < |entries| ==> Proper(entries[i].value)
  }

  /** Two mappings mean the same exactly when they have the same keys with values that mean the same. */
  lemma SameTableIff<T(!new), V>(a: Node<T>, b: Node<T>, read: Reader<T, V>)
    requires a.Mapping? && b.Mapping? && forall key :: Has(a.entries, key) <==> Has(b.entries, key)
    ensures Means(a, read) == Means(b, read) <==>
            forall key :: Has(a.entries, key) ==> Means(Value(a.entries, key), read) == Means(Value(b.entries, key), read)
  {
    forall key
      ensures key in Means(a, read).fields <==> Has(a.entries, key)
      ensures key in Means(b, read).fields <==> Has(b.entries, key)
      ensures Has(a.entries, key) ==>
              Means(a, read).fields[key] == Means(Value(a.entries, key), read) &&
              Means(b, read).fields[key] == Means(Value(b.entries, key), read)
    {
      TableAt(a, key, read);
      TableAt(b, key, read);
    }
    if forall key :: Has(a.entries, key) ==> Means(Value(a.entries, key), read) == Means(Value(b.entries, key), read) {
      assert Means(a, read).fields == Means(b, read).fields;
    }
  }

  lemma TableAt<T, V>(node: Node<T>, key: T, read: Reader<T, V>)
    requires node.Mapping?
    ensures Has(node.entries, key) <==> key in Means(node, read).fields
    ensures Has(node.entries, key) ==> Means(node, read).fields[key] == Means(Value(node.entries, key), read)
  {
    HasKey(node.entries, key);
  }

  /** Every scalar that keeps its form, because its text is already the wanted one, decodes to what is wanted. */
  ghost predicate KeptFormsFit<T, V(!new)>(into: Node<T>, want: Node<T>, read: Reader<T, V>)
    decreases into
  {
    if into.Mapping? && want.Mapping? then
      forall i :: 0 <= i < |into.entries| && Has(want.entries, into.entries[i].key) ==>
        KeptFormsFit(into.entries[i].value, Value(want.entries, into.entries[i].key), read)
    else into.Scalar? && want.Scalar? && into.text == want.text ==> read(into.form, into.text) == read(want.form, want.text)
  }

  /**
   The merged tree decodes to what is wanted, whatever it decoded to before, if and
   only if every scalar that keeps its form decodes to what is wanted.
   */
  lemma {:induction false} MergeMeansWantIff<T(!new), V(!new)>(into: Node<T>, want: Node<T>, read: Reader<T, V>)
    requires Proper(into) && Proper(want)
    ensures Proper(Merge(into, want))
    ensures Means(Merge(into, want), read) == Means(want, read) <==> KeptFormsFit(into, want, read)
    decreases into
  {
    var merged := Merge(into, want);
    if into.Mapping? && want.Mapping? {
      forall key
        ensures Has(merged.entries, key) <==> Has(want.entries, key)
        ensures Has(merged.entries, key) ==>
                && Proper(Value(merged.entries, key))
                && (Means(Value(merged.entries, key), read) == Means(Value(want.entries, key), read) <==> FitsAt(into, want, key, read))
      {
        MergedMapping(into, want, key);
        if Has(want.entries, key) && Has(into.entries, key) {
          MergeMeansWantIff(Value(into.entries, key), Value(want.entries, key), read);
        }
      }
      SameTableIff(merged, want, read);
      FitsEverywhere(into, want, read);
      MergedMapping(into, want, into.form);
      ProperMapping(merged);
    } else if !(into.Scalar? && want.Scalar? && into.text == want.text) {
      CommentsMeanNothing(want, into.comments, read);
    }
  }

  ghost predicate FitsAt<T, V(!new)>(into: Node<T>, want: Node<T>, key: T, read: Reader<T, V>)
    requires into.Mapping? && want.Mapping?
  {
    Has(into.entries, key) && Has(want.entries, key) ==> KeptFormsFit(Value(into.entries, key), Value(want.entries, key), read)
  }

  lemma FitsEverywhere<T(!new), V(!new)>(into: Node<T>, want: Node<T>, read: Reader<T, V>)
    requires into.Mapping? && want.Mapping? && Distinct(into.entries)
    ensures KeptFormsFit(into, want, read) <==> forall key :: Has(want.entries, key) ==> FitsAt(into, want, key, read)
  {
    forall i | 0 <= i < |into.entries| ensures Has(into.entries, into.entries[i].key) && Value(into.entries, into.entries[i].key) == into.entries[i].value {
      HasAt(into.entries, i);
    }
    if forall key :: Has(want.entries, key) ==> FitsAt(into, want, key, read) {
      forall i | 0 <= i < |into.entries| && Has(want.entries, into.entries[i].key)
        ensures KeptFormsFit(into.entries[i].value, Value(want.entries, into.entries[i].key), read)
      {
        assert FitsAt(into, want, into.entries[i].key, read);
      }
    }
  }

  /** Merging makes the tree say what is wanted, text for text. */
  lemma {:induction false} MergeMeansWant<T(!new)>(into: Node<T>, want: Node<T>)
    requires Proper(into) && Proper(want)
    ensures Proper(Merge(into, want))
    ensures Means(Merge(into, want), AsText) == Means(want, AsText)
  {
    MergeMeansWantIff(into, want, AsText);
    TextsFit(into, want);
  }

  lemma {:induction false} TextsFit<T(!new)>(into: Node<T>, want: Node<T>)
    ensures KeptFormsFit(into, want, AsText)
    decreases into
  {
    if into.Mapping? && want.Mapping? {
      forall i | 0 <= i < |into.entries| && Has(want.entries, into.entries[i].key)
        ensures KeptFormsFit(into.entries[i].value, Value(want.entries, into.entries[i].key), AsText)
      {
        TextsFit(into.entries[i].value, Value(want.entries, into.entries[i].key));
      }
    }
  }

  /** A quoted number in the file stays a string although a number with that text is wanted. */
  lemma AQuotedNumberStaysAString<T(!new), V(!new)>(quoted: T, plain: T, comments: Comments<T>, text: T, read: Reader<T, V>)
    requires read(quoted, text) != read(plain, text)
    ensures var into, want := Scalar(quoted, comments, text), Scalar(plain, comments, text);
            Merge(into, want) == into && Means(Merge(into, want), read) != Means(want, read)
  {
  }

  lemma ProperMapping<T(!new)>(node: Node<T>)
    requires node.Mapping? && Distinct(node.entries)
    requires forall key :: Has(node.entries, key) ==> Proper(Value(node.entries, key))
    ensures Proper(node)
  {
    forall i | 0 <= i < |node.entries| ensures Proper(node.entries[i].value) {
      HasAt(node.entries, i);
    }
  }

  lemma CommentsMeanNothing<T, V>(node: Node<T>, comments: Comments<T>, read: Reader<T, V>)
    ensures Means(node.(comments := comments), read) == Means(node, read)
    ensures Proper(node.(comments := comments)) <==> Proper(node)
  {
  }

  // ------------------------------------------------------------------
  // When a merge changes nothing
  // ------------------------------------------------------------------

  /** A mapping with the wanted keys, each value already merged, stays as it is. */
  lemma MergeKeeps<T(!new)>(into: Node<T>, want: Node<T>)
    requires into.Mapping? && want.Mapping? && Distinct(into.entries) && Distinct(want.entries)
    requires forall key :: Has(into.entries, key) <==> Has(want.entries, key)
    requires forall key :: Has(into.entries, key) ==>
               Merge(Value(into.entries, key), Value(want.entries, key)) == Value(into.entries, key)
    ensures Merge(into, want) == into
  {
    KeptAll(into, want.entries, |into.entries|);
    assert into.entries[..|into.entries|] == into.entries;
    AppendedNone(into.entries, want.entries, |want.entries|);
  }

  lemma {:induction false} KeptAll<T(!new)>(into: Node<T>, want: seq<Entry<T>>, n: nat)
    requires into.Mapping? && Distinct(into.entries) && n <= |into.entries|
    requires forall key :: Has(into.entries, key) ==>
               Has(want, key) && Merge(Value(into.entries, key), Value(want, key)) == Value(into.entries, key)
    ensures Kept(into, want, n) == into.entries[..n]
    decreases n
  {
    if n > 0 {
      KeptAll(into, want, n - 1);
      HasAt(into.entries, n - 1);
    }
  }

  lemma {:induction false} AppendedNone<T(!new)>(entries: seq<Entry<T>>, want: seq<Entry<T>>, n: nat)
    requires n <= |want| && forall key :: Has(want, key) ==> Has(entries, key)
    ensures Appended(entries, want, n) == entries
    decreases n
  {
    if n > 0 {
      AppendedNone(entries, want, n - 1);
      HasAt(want, n - 1);
    }
  }

  lemma {:induction false} MergeWithItself<T(!new)>(node: Node<T>)
    requires Proper(node)
    ensures Merge(node, node) == node
    decreases node
  {
    if node.Mapping? {
      forall key | Has(node.entries, key) ensures Merge(Value(node.entries, key), Value(node.entries, key)) == Value(node.entries, key) {
        MergeWithItself(Value(node.entries, key));
      }
      MergeKeeps(node, node);
    }
  }

  /** Merging again changes nothing. */
  lemma {:induction false} MergeIsIdempotent<T(!new)>(into: Node<T>, want: Node<T>)
    requires Proper(into) && Proper(want)
    ensures Merge(Merge(into, want), want) == Merge(into, want)
    decreases into
  {
    var merged := Merge(into, want);
    if into.Mapping? && want.Mapping? {
      forall key
        ensures Has(merged.entries, key) <==> Has(want.entries, key)
        ensures Distinct(merged.entries)
        ensures Has(merged.entries, key) ==>
                Merge(Value(merged.entries, key), Value(want.entries, key)) == Value(merged.entries, key)
      {
        MergedMapping(into, want, key);
        if Has(want.entries, key) {
          if Has(into.entries, key) {
            MergeIsIdempotent(Value(into.entries, key), Value(want.entries, key));
          } else {
            MergeWithItself(Value(want.entries, key));
          }
        }
      }
      MergedMapping(into, want, into.form);
      MergeKeeps(merged, want);
    } else if want.Mapping? {
      MergeReplaced(want, into.comments);
    }
  }

  /** A mapping that replaced something else merges like itself. */
  lemma MergeReplaced<T(!new)>(want: Node<T>, comments: Comments<T>)
    requires Proper(want) && want.Mapping?
    ensures var replaced := Mapping(want.form, comments, want.entries);
            Merge(replaced, want) == replaced
  {
    var replaced := Mapping(want.form, comments, want.entries);
    forall key | Has(want.entries, key) ensures Merge(Value(replaced.entries, key), Value(want.entries, key)) == Value(replaced.entries, key) {
      MergeWithItself(Value(want.entries, key));
    }
    MergeKeeps(replaced, want);
  }

  /** No sequence at any depth. */
  ghost predicate Flat<T>(node: Node<T>) {
    match node
    case Scalar(_, _, _) => true
    case Sequence(_, _, _) => false
    case Mapping(_, _, entries) => forall i :: 0 <= i < |entries| ==> Flat(entries[i].value)
  }

  /** A tree of mappings and scalars that already means what is wanted is left exactly as it was written. */
  lemma {:induction false} EqualMeaningIsIdentity<T(!new)>(into: Node<T>, want: Node<T>)
    requires Proper(into) && Proper(want) && Flat(into)
    ensures Merge(into, want) == into <==> Means(into, AsText) == Means(want, AsText)
    decreases into
  {
    MergeMeansWant(into, want);
    if into.Mapping? && Means(into, AsText) == Means(want, AsText) {
      assert want.Mapping?;
      forall key
        ensures Has(into.entries, key) <==> Has(want.entries, key)
        ensures Has(into.entries, key) ==>
                Merge(Value(into.entries, key), Value(want.entries, key)) == Value(into.entries, key)
      {
        TableAt(into, key, AsText);
        TableAt(want, key, AsText);
        if Has(into.entries, key) {
          EqualMeaningIsIdentity(Value(into.entries, key), Value(want.entries, key));
        }
      }
      MergeKeeps(into, want);
    }
  }

  // ------------------------------------------------------------------
  // The file's layout at any depth
  // ------------------------------------------------------------------

  /** A path of keys that leads through mappings. */
  ghost predicate Leads<T>(node: Node<T>, path: seq<T>)
    decreases |path|
  {
    path == [] || (node.Mapping? && Has(node.entries, path[0]) && Leads(Value(node.entries, path[0]), path[1..]))
  }

  ghost function At<T>(node: Node<T>, path: seq<T>): Node<T>
    requires Leads(node, path)
    decreases |path|
  {
    if path == [] then node else At(Value(node.entries, path[0]), path[1..])
  }

  /** The node is left as it is, or its entries are merged one by one. */
  predicate Stays<T(==)>(into: Node<T>, want: Node<T>) {
    (into.Mapping? && want.Mapping?) || (into.Scalar? && want.Scalar? && into.text == want.text)
  }

  /**
   Wherever a path leads in both trees, the merged tree has the comments the file had.
   What the file said there stays as it was written, form included, if it is already
   what is wanted or both are mappings; otherwise it is the wanted node, form and all.
   */
  lemma {:induction false} MergeAtEveryPath<T>(into: Node<T>, want: Node<T>, path: seq<T>)
    requires Proper(into) && Proper(want) && Leads(into, path) && Leads(want, path)
    ensures Leads(Merge(into, want), path)
    ensures var was, wanted, now := At(into, path), At(want, path), At(Merge(into, want), path);
            && now.comments == was.comments
            && (!Stays(was, wanted) ==> now == wanted.(comments := was.comments))
            && (Stays(was, wanted) && was.Scalar? ==> now == was)
            && (Stays(was, wanted) && was.Mapping? ==> now.Mapping? && now.form == was.form)
    decreases |path|
  {
    if path != [] {
      MergedMapping(into, want, path[0]);
      MergeAtEveryPath(Value(into.entries, path[0]), Value(want.entries, path[0]), path[1..]);
    }
  }
}
