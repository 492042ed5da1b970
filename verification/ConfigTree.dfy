/**
Configuration trees: YAML nodes are loaded into variants, whose maps are kept sorted by key, and variants are saved as
YAML nodes. The text between the two, the emitter's output and the parser's input, stands for the same node tree.
*/
module ConfigTree {
  import opened Common

  /** A map key is a scalar, or a node that cannot be read as a string and makes the whole load fail. */
  datatype Key = Plain(text: string) | Unreadable

  datatype Entry = Entry(key: Key, value: Node)

  datatype Node = Null | Scalar(text: string) | Sequence(items: seq<Node>) | Map(entries: seq<Entry>)

  datatype Pair = Pair(key: string, value: Variant)

  /** `Other` is any variant type besides the ones below, with the text it converts to. */
  datatype Variant =
    | Invalid
    | Text(text: string)
    | Other(printed: string)
    | List(items: seq<Variant>)
    | VariantMap(pairs: seq<Pair>)

  // ----- sorted maps -----

  predicate Less(a: string, b: string) {
    if b == "" then false
    else if a == "" then true
    else if a[0] == b[0] then Less(a[1..], b[1..])
    else a[0] < b[0]
  }

  lemma LessTransitive(a: string, b: string, c: string)
    requires Less(a, b) && Less(b, c)
    ensures Less(a, c)
  {
  }

  lemma LessIrreflexive(a: string)
    ensures !Less(a, a)
  {
  }

  lemma {:induction false} LessTotal(a: string, b: string)
    ensures Less(a, b) || a == b || Less(b, a)
  {
    if a != "" && b != "" && a[0] == b[0] {
      LessTotal(a[1..], b[1..]);
      assert a == [a[0]] + a[1..] && b == [b[0]] + b[1..];
    }
  }

  /** The order of keys: at the first difference the smaller character, or the shorter key, comes first. */
  lemma {:induction false} LessExactly(a: string, b: string)
    ensures
      Less(a, b) <==>
      exists n: nat :: n <= |a| && n < |b| && a[..n] == b[..n] && (n == |a| || a[n] < b[n])
  {
    if a != "" && b != "" && a[0] == b[0] {
      LessExactly(a[1..], b[1..]);
      if Less(a, b) {
        var n: nat :|
          n <= |a[1..]| && n < |b[1..]| && a[1..][..n] == b[1..][..n] && (n == |a[1..]| || a[1..][n] < b[1..][n]);
        assert a[..n + 1] == [a[0]] + a[1..][..n] && b[..n + 1] == [b[0]] + b[1..][..n];
      }
      if exists n: nat :: n <= |a| && n < |b| && a[..n] == b[..n] && (n == |a| || a[n] < b[n]) {
        var n: nat :| n <= |a| && n < |b| && a[..n] == b[..n] && (n == |a| || a[n] < b[n]);
        assert a[1..][..n - 1] == a[..n][1..] && b[1..][..n - 1] == b[..n][1..];
      }
    } else if b != "" {
      assert a[..0] == b[..0];
    }
  }

  ghost predicate Sorted(pairs: seq<Pair>) {
    forall i, j :: 0 <= i < j < |pairs| ==> Less(pairs[i].key, pairs[j].key)
  }

  /** Assignment to a key of a sorted map. */
  function Insert(pairs: seq<Pair>, key: string, value: Variant): seq<Pair> {
    if pairs == [] then [Pair(key, value)]
    else if pairs[0].key == key then [Pair(key, value)] + pairs[1..]
    else if Less(key, pairs[0].key) then [Pair(key, value)] + pairs
    else [pairs[0]] + Insert(pairs[1..], key, value)
  }

  /** The value found under a key. */
  function Find(pairs: seq<Pair>, key: string): Option<Variant> {
    if pairs == [] then None else if pairs[0].key == key then Some(pairs[0].value) else Find(pairs[1..], key)
  }

  /** Insertion keeps the order, and changes the value found under its own key only. */
  lemma {:induction false} InsertSorted(pairs: seq<Pair>, key: string, value: Variant)
    requires Sorted(pairs)
    ensures
      var r := Insert(pairs, key, value);
      && Sorted(r) && r != []
      && (forall p :: p in r ==> p in pairs || p == Pair(key, value))
      && (pairs == [] || !Less(pairs[0].key, key) ==> r[0].key == key)
      && (pairs != [] && Less(pairs[0].key, key) ==> r[0] == pairs[0])
  {
    if pairs != [] {
      var head, rest := pairs[0], pairs[1..];
      if head.key == key {
        assert forall j :: 0 < j < |pairs| ==> Less(key, pairs[j].key);
        LessIrreflexive(key);
      } else if Less(key, head.key) {
        forall j | 0 <= j < |pairs|
          ensures Less(key, pairs[j].key)
        {
          if j > 0 {
            LessTransitive(key, head.key, pairs[j].key);
          }
        }
        LessAntisymmetric(key, head.key);
      } else {
        LessTotal(key, head.key);
        InsertSorted(rest, key, value);
        var r := Insert(rest, key, value);
        assert forall p :: p in rest ==> Less(head.key, p.key);
        forall p | p in r
          ensures Less(head.key, p.key)
        {
        }
        assert Insert(pairs, key, value) == [head] + r;
        SortedCons(head, r);
      }
    }
  }

  lemma LessAntisymmetric(a: string, b: string)
    requires Less(a, b)
    ensures !Less(b, a)
  {
  }

  lemma SortedCons(head: Pair, r: seq<Pair>)
    requires Sorted(r) && forall p :: p in r ==> Less(head.key, p.key)
    ensures Sorted([head] + r)
  {
  }

  lemma {:induction false} FindInserted(pairs: seq<Pair>, key: string, value: Variant, other: string)
    ensures Find(Insert(pairs, key, value), other) == if other == key then Some(value) else Find(pairs, other)
  {
    if pairs != [] && pairs[0].key != key && !Less(key, pairs[0].key) {
      FindInserted(pairs[1..], key, value, other);
    }
  }

  lemma {:induction false} InsertLast(pairs: seq<Pair>, key: string, value: Variant)
    requires forall p :: p in pairs ==> Less(p.key, key)
    ensures Insert(pairs, key, value) == pairs + [Pair(key, value)]
  {
    if pairs != [] {
      var head, rest := pairs[0], pairs[1..];
      assert head in pairs;
      LessIrreflexive(key);
      LessAntisymmetric(head.key, key);
      InsertLast(rest, key, value);
      assert pairs == [head] + rest;
    }
  }

  // ----- loading -----

  /** yamlNodeToVariant; None when a key cannot be read. */
  function ToVariant(n: Node): Option<Variant>
    decreases n, 1, 0
  {
    match n
    case Null => Some(Invalid)
    case Scalar(text) => Some(Text(text))
    case Sequence(items) =>
      var r := Items(n, |items|);
      if r.None? then None else Some(List(r.value))
    case Map(entries) =>
      var r := Pairs(n, |entries|);
      if r.None? then None else Some(VariantMap(r.value))
  }

  /** The first k items. */
  function Items(n: Node, k: nat): (r: Option<seq<Variant>>)
    requires n.Sequence? && k <= |n.items|
    decreases n, 0, k
  {
    if k == 0 then Some([])
    else
      var front, last := Items(n, k - 1), ToVariant(n.items[k - 1]);
      if front.None? || last.None? then None else Some(front.value + [last.value])
  }

  /** The first k entries: a later value replaces an earlier one under the same key. */
  function Pairs(n: Node, k: nat): (r: Option<seq<Pair>>)
    requires n.Map? && k <= |n.entries|
    decreases n, 0, k
  {
    if k == 0 then Some([])
    else
      var front, e := Pairs(n, k - 1), n.entries[k - 1];
      if front.None? || e.key.Unreadable? then None
      else
        var v := ToVariant(e.value);
        if v.None? then None else Some(Insert(front.value, e.key.text, v.value))
  }

  /** convertYamlToModel: a root map becomes a list of one. */
  function ToModel(n: Node): Option<seq<Variant>> {
    match n
    case Sequence(items) => Items(n, |items|)
    case Map(_) =>
      var v := ToVariant(n);
      if v.None? then None else Some([v.value])
    case _ => Some([])
  }

  /** loadConfig: a failed conversion leaves the model empty. */
  function Load(n: Node): seq<Variant> {
    var m := ToModel(n);
    if m.None? then [] else m.value
  }

  /** What each kind of node is loaded as. */
  lemma LoadedAs(n: Node)
    requires ToVariant(n).Some?
    ensures
      var v := ToVariant(n).value;
      match n
      case Null => v == Invalid
      case Scalar(text) => v == Text(text)
      case Sequence(items) =>
        v.List? && |v.items| == |items| && forall i :: 0 <= i < |items| ==> ToVariant(items[i]) == Some(v.items[i])
      case Map(entries) => v.VariantMap? && forall key :: Find(v.pairs, key) == LastEntry(entries, key)
  {
    match n
    case Sequence(items) => LoadedItemsAs(n, |items|);
    case Map(entries) =>
      forall key: string
        ensures Find(ToVariant(n).value.pairs, key) == LastEntry(entries, key)
      {
        LastEntryWins(n, |entries|, key);
        assert entries[..|entries|] == entries;
      }
    case _ =>
  }

  lemma {:induction false} LoadedItemsAs(n: Node, k: nat)
    requires n.Sequence? && k <= |n.items| && Items(n, k).Some?
    ensures |Items(n, k).value| == k
    ensures forall i :: 0 <= i < k ==> ToVariant(n.items[i]) == Some(Items(n, k).value[i])
    decreases k
  {
    if k > 0 {
      LoadedItemsAs(n, k - 1);
    }
  }

  /** Some key anywhere in the tree cannot be read as a string. */
  ghost predicate HasUnreadable(n: Node) {
    match n
    case Sequence(items) => exists i :: 0 <= i < |items| && HasUnreadable(items[i])
    case Map(entries) =>
      exists i :: 0 <= i < |entries| && (entries[i].key.Unreadable? || HasUnreadable(entries[i].value))
    case _ => false
  }

  /** A load fails, and leaves the model empty, exactly when some key anywhere cannot be read. */
  lemma {:induction false} UnreadableFails(n: Node)
    ensures ToVariant(n).None? <==> HasUnreadable(n)
    ensures HasUnreadable(n) ==> Load(n) == []
    decreases n, 1, 0
  {
    match n
    case Sequence(items) => UnreadableItems(n, |items|);
    case Map(entries) => UnreadablePairs(n, |entries|);
    case _ =>
  }

  lemma {:induction false} UnreadableItems(n: Node, k: nat)
    requires n.Sequence? && k <= |n.items|
    ensures Items(n, k).None? <==> exists i :: 0 <= i < k && HasUnreadable(n.items[i])
    decreases n, 0, k
  {
    if k > 0 {
      UnreadableItems(n, k - 1);
      UnreadableFails(n.items[k - 1]);
    }
  }

  lemma {:induction false} UnreadablePairs(n: Node, k: nat)
    requires n.Map? && k <= |n.entries|
    ensures
      Pairs(n, k).None? <==>
      exists i :: 0 <= i < k && (n.entries[i].key.Unreadable? || HasUnreadable(n.entries[i].value))
    decreases n, 0, k
  {
    if k > 0 {
      UnreadablePairs(n, k - 1);
      UnreadableFails(n.entries[k - 1].value);
    }
  }

  // ----- saving -----

  /** variantToYamlNode: every leaf is stored as the text it converts to. */
  function ToNode(v: Variant): Node {
    match v
    case Invalid => Scalar("")
    case Text(text) => Scalar(text)
    case Other(printed) => Scalar(printed)
    case List(items) => Sequence(seq(|items|, i requires 0 <= i < |items| => ToNode(items[i])))
    case VariantMap(pairs) =>
      Map(seq(|pairs|, i requires 0 <= i < |pairs| => Entry(Plain(pairs[i].key), ToNode(pairs[i].value))))
  }

  // ----- the properties -----

  /** Maps are sorted at every depth, as the map type keeps them. */
  ghost predicate Proper(v: Variant) {
    match v
    case List(items) => forall i :: 0 <= i < |items| ==> Proper(items[i])
    case VariantMap(pairs) => Sorted(pairs) && forall i :: 0 <= i < |pairs| ==> Proper(pairs[i].value)
    case _ => true
  }

  /** No leaf is of an other type. */
  ghost predicate Textual(v: Variant) {
    match v
    case Other(_) => false
    case List(items) => forall i :: 0 <= i < |items| ==> Textual(items[i])
    case VariantMap(pairs) => forall i :: 0 <= i < |pairs| ==> Textual(pairs[i].value)
    case _ => true
  }

  ghost predicate NullFree(v: Variant) {
    match v
    case Invalid => false
    case List(items) => forall i :: 0 <= i < |items| ==> NullFree(items[i])
    case VariantMap(pairs) => forall i :: 0 <= i < |pairs| ==> NullFree(pairs[i].value)
    case _ => true
  }

  /** Every leaf replaced by the text it converts to. */
  function Stringified(v: Variant): Variant {
    match v
    case Invalid => Text("")
    case Text(text) => Text(text)
    case Other(printed) => Text(printed)
    case List(items) => List(seq(|items|, i requires 0 <= i < |items| => Stringified(items[i])))
    case VariantMap(pairs) =>
      VariantMap(seq(|pairs|, i requires 0 <= i < |pairs| => Pair(pairs[i].key, Stringified(pairs[i].value))))
  }

  /** Saving and loading a tree of any depth stringifies its leaves and changes nothing else. */
  lemma {:induction false} TripStringifies(v: Variant)
    requires Proper(v)
    ensures ToVariant(ToNode(v)) == Some(Stringified(v))
    decreases v, 1, 0
  {
    match v
    case List(items) =>
      TripItems(v, |items|);
      assert Stringified(v).items[..|items|] == Stringified(v).items;
    case VariantMap(pairs) =>
      TripPairs(v, |pairs|);
      assert Stringified(v).pairs[..|pairs|] == Stringified(v).pairs;
    case _ =>
  }

  lemma {:induction false} TripItems(v: Variant, k: nat)
    requires Proper(v) && v.List? && k <= |v.items|
    ensures Items(ToNode(v), k) == Some(Stringified(v).items[..k])
    decreases v, 0, k
  {
    if k > 0 {
      TripItems(v, k - 1);
      TripStringifies(v.items[k - 1]);
      var all := Stringified(v).items;
      assert all[..k] == all[..k - 1] + [all[k - 1]];
    }
  }

  lemma KeysBelow(v: Variant, k: nat)
    requires v.VariantMap? && Sorted(v.pairs) && k < |v.pairs|
    ensures forall p :: p in Stringified(v).pairs[..k] ==> Less(p.key, v.pairs[k].key)
  {
  }

  lemma {:induction false} TripPairs(v: Variant, k: nat)
    requires Proper(v) && v.VariantMap? && k <= |v.pairs|
    ensures Pairs(ToNode(v), k) == Some(Stringified(v).pairs[..k])
    decreases v, 0, k
  {
    if k > 0 {
      TripPairs(v, k - 1);
      TripStringifies(v.pairs[k - 1].value);
      var all := Stringified(v).pairs;
      assert all[..k] == all[..k - 1] + [all[k - 1]];
      KeysBelow(v, k - 1);
      hide Less;
      InsertLast(all[..k - 1], v.pairs[k - 1].key, Stringified(v.pairs[k - 1].value));
    }
  }

  /** What a whole save and load gives back: a map comes back as a list of one, a lone scalar as an empty list. */
  lemma SaveThenLoad(v: Variant)
    requires Proper(v)
    ensures
      Load(ToNode(v))
      == match v
         case List(items) => Stringified(v).items
         case VariantMap(_) => [Stringified(v)]
         case _ => []
  {
    match v
    case List(items) =>
      TripItems(v, |items|);
      assert Stringified(v).items[..|items|] == Stringified(v).items;
    case VariantMap(_) => TripStringifies(v);
    case _ =>
  }

  /** A saved leaf comes back as the text it converts to, an invalid one as the empty text. */
  lemma SavedLeaves(text: string)
    ensures Load(ToNode(List([Invalid]))) == [Text("")]
    ensures Load(ToNode(List([Text(text)]))) == [Text(text)] == Load(ToNode(List([Other(text)])))
  {
    SavedLeaf(Invalid, "");
    SavedLeaf(Text(text), text);
    SavedLeaf(Other(text), text);
  }

  lemma SavedLeaf(v: Variant, text: string)
    requires !v.List? && !v.VariantMap? && Stringified(v) == Text(text)
    ensures Load(ToNode(List([v]))) == [Text(text)]
  {
    var all := List([v]);
    SaveThenLoad(all);
    hide Load, ToNode;
    assert Stringified(all).items == [Text(text)];
  }

  /** Loaded variants have sorted maps and hold only text and invalid leaves. */
  lemma {:induction false} LoadedProper(n: Node)
    requires ToVariant(n).Some?
    ensures Proper(ToVariant(n).value) && Textual(ToVariant(n).value)
    decreases n, 1, 0
  {
    match n
    case Sequence(items) => LoadedItems(n, |items|);
    case Map(entries) => LoadedPairs(n, |entries|);
    case _ =>
  }

  lemma {:induction false} LoadedItems(n: Node, k: nat)
    requires n.Sequence? && k <= |n.items| && Items(n, k).Some?
    ensures forall v :: v in Items(n, k).value ==> Proper(v) && Textual(v)
    decreases n, 0, k
  {
    if k > 0 {
      LoadedItems(n, k - 1);
      LoadedProper(n.items[k - 1]);
    }
  }

  lemma {:induction false} LoadedPairs(n: Node, k: nat)
    requires n.Map? && k <= |n.entries| && Pairs(n, k).Some?
    ensures Sorted(Pairs(n, k).value)
    ensures forall p :: p in Pairs(n, k).value ==> Proper(p.value) && Textual(p.value)
    decreases n, 0, k
  {
    if k > 0 {
      LoadedPairs(n, k - 1);
      var e := n.entries[k - 1];
      LoadedProper(e.value);
      InsertSorted(Pairs(n, k - 1).value, e.key.text, ToVariant(e.value).value);
    }
  }

  lemma {:induction false} StringifiedSame(v: Variant)
    requires Textual(v)
    ensures Stringified(v) == v <==> NullFree(v)
  {
    match v
    case List(items) =>
      forall i | 0 <= i < |items|
        ensures Stringified(items[i]) == items[i] <==> NullFree(items[i])
      {
        StringifiedSame(items[i]);
      }
      SameItems(Stringified(v).items, items);
    case VariantMap(pairs) =>
      forall i | 0 <= i < |pairs|
        ensures Stringified(pairs[i].value) == pairs[i].value <==> NullFree(pairs[i].value)
      {
        StringifiedSame(pairs[i].value);
      }
      SamePairs(Stringified(v).pairs, pairs);
    case _ =>
  }

  lemma SameItems(a: seq<Variant>, b: seq<Variant>)
    requires |a| == |b|
    ensures a == b <==> forall i :: 0 <= i < |b| ==> a[i] == b[i]
  {
  }

  lemma SamePairs(a: seq<Pair>, b: seq<Pair>)
    requires |a| == |b| && forall i :: 0 <= i < |b| ==> a[i].key == b[i].key
    ensures a == b <==> forall i :: 0 <= i < |b| ==> a[i].value == b[i].value
  {
  }

  /** Loading again what was loaded and saved gives the same model exactly when the model has no null in it. */
  lemma LoadedTrip(n: Node)
    ensures Load(ToNode(List(Load(n)))) == Load(n) <==> NullFree(List(Load(n)))
  {
    var m := Load(n);
    if ToModel(n).Some? {
      if n.Sequence? {
        LoadedItems(n, |n.items|);
      } else if n.Map? {
        LoadedProper(n);
      }
    }
    forall i | 0 <= i < |m|
      ensures Proper(m[i]) && Textual(m[i])
    {
      assert m[i] in m;
    }
    SaveThenLoad(List(m));
    StringifiedSame(List(m));
  }

  lemma {:induction false} StringifiedStable(v: Variant)
    requires Proper(v)
    ensures
      var s := Stringified(v);
      Proper(s) && Textual(s) && NullFree(s)
  {
    match v
    case List(items) =>
      forall i | 0 <= i < |items|
        ensures Proper(Stringified(items[i])) && Textual(Stringified(items[i])) && NullFree(Stringified(items[i]))
      {
        StringifiedStable(items[i]);
      }
    case VariantMap(pairs) =>
      forall i | 0 <= i < |pairs|
        ensures
          var s := Stringified(pairs[i].value);
          Proper(s) && Textual(s) && NullFree(s)
      {
        StringifiedStable(pairs[i].value);
      }
    case _ =>
  }

  /** Whatever was saved first, a second round trip changes nothing any more. */
  lemma SecondTrip(v: Variant)
    requires Proper(v)
    ensures
      var m := Load(ToNode(v));
      Load(ToNode(List(m))) == m
  {
    var m := Load(ToNode(v));
    SaveThenLoad(v);
    StringifiedStable(v);
    forall i | 0 <= i < |m|
      ensures Proper(m[i]) && Textual(m[i]) && NullFree(m[i])
    {
    }
    SaveThenLoad(List(m));
    StringifiedSame(List(m));
  }

  /** The value loaded under a key is the one of the last entry with that key. */
  function LastEntry(entries: seq<Entry>, key: string): Option<Variant> {
    if entries == [] then None
    else
      var e := entries[|entries| - 1];
      if e.key == Plain(key) then ToVariant(e.value) else LastEntry(entries[..|entries| - 1], key)
  }

  lemma {:induction false} LastEntryWins(n: Node, k: nat, key: string)
    requires n.Map? && k <= |n.entries| && Pairs(n, k).Some?
    ensures Find(Pairs(n, k).value, key) == LastEntry(n.entries[..k], key)
    decreases k
  {
    if k > 0 {
      var e := n.entries[k - 1];
      LastEntryWins(n, k - 1, key);
      assert n.entries[..k][..k - 1] == n.entries[..k - 1];
      FindInserted(Pairs(n, k - 1).value, e.key.text, ToVariant(e.value).value, key);
    }
  }

  // ----- the recursive conversions with their loops -----

  method YamlNodeToVariant(n: Node) returns (r: Option<Variant>)
    ensures r == ToVariant(n)
    decreases n
  {
    match n
    case Null => r := Some(Invalid);
    case Scalar(text) => r := Some(Text(text));
    case Sequence(items) =>
      var list: seq<Variant> := [];
      for k := 0 to |items|
        invariant Items(n, k) == Some(list)
      {
        var item := YamlNodeToVariant(items[k]);
        if item.None? {
          ItemsFail(n, k + 1);
          return None;
        }
        list := list + [item.value];
      }
      r := Some(List(list));
    case Map(entries) =>
      var pairs: seq<Pair> := [];
      for k := 0 to |entries|
        invariant Pairs(n, k) == Some(pairs)
      {
        if entries[k].key.Unreadable? {
          PairsFail(n, k + 1);
          return None;
        }
        var value := YamlNodeToVariant(entries[k].value);
        if value.None? {
          PairsFail(n, k + 1);
          return None;
        }
        pairs := Insert(pairs, entries[k].key.text, value.value);
      }
      r := Some(VariantMap(pairs));
  }

  lemma {:induction false} ItemsFail(n: Node, k: nat)
    requires n.Sequence? && k <= |n.items| && Items(n, k).None?
    ensures Items(n, |n.items|).None?
    decreases |n.items| - k
  {
    if k < |n.items| {
      ItemsFail(n, k + 1);
    }
  }

  lemma {:induction false} PairsFail(n: Node, k: nat)
    requires n.Map? && k <= |n.entries| && Pairs(n, k).None?
    ensures Pairs(n, |n.entries|).None?
    decreases |n.entries| - k
  {
    if k < |n.entries| {
      PairsFail(n, k + 1);
    }
  }

  method VariantToYamlNode(v: Variant) returns (n: Node)
    ensures n == ToNode(v)
    decreases v
  {
    match v
    case VariantMap(pairs) =>
      var entries: seq<Entry> := [];
      for k := 0 to |pairs|
        invariant entries == ToNode(v).entries[..k]
      {
        var value := VariantToYamlNode(pairs[k].value);
        entries := entries + [Entry(Plain(pairs[k].key), value)];
      }
      n := Map(entries);
    case List(items) =>
      var nodes: seq<Node> := [];
      for k := 0 to |items|
        invariant nodes == ToNode(v).items[..k]
      {
        var item := VariantToYamlNode(items[k]);
        nodes := nodes + [item];
      }
      n := Sequence(nodes);
    case Invalid => n := Scalar("");
    case Text(text) => n := Scalar(text);
    case Other(printed) => n := Scalar(printed);
  }
}
