/**
The SELECT builder: conditions collected by `where`, printed as a WHERE clause with one named placeholder per
condition, and bound by name. The printed text is read back by the grammar for search conditions in section 8.12 of
ISO/IEC 9075:1992 (OR of ANDs) and compared with the list of conditions.
*/
module SelectBuilder {
  datatype Operator = Equal | NotEqual | GreaterThan | LessThan | GreaterEqual | LessEqual

  datatype Logical = And | Or

  /** A column value; every comparable type is represented by its order. */
  datatype Value = Null | Number(n: int)

  datatype Condition = Condition(field: string, op: Operator, value: Value, logic: Logical)

  type Row = string -> Value

  function OperatorText(op: Operator): string {
    match op
    case Equal => "="
    case NotEqual => "!="
    case GreaterThan => ">"
    case LessThan => "<"
    case GreaterEqual => ">="
    case LessEqual => "<="
  }

  function LogicalText(logic: Logical): string { if logic.And? then "AND" else "OR" }

  // ----- printing -----

  function ClauseText(c: Condition): string { c.field + " " + OperatorText(c.op) + " " + ":" + c.field }

  function WhereText(cs: seq<Condition>): string {
    if cs == [] then ""
    else
      var n := |cs| - 1;
      if n == 0 then ClauseText(cs[0])
      else WhereText(cs[..n]) + " " + LogicalText(cs[n].logic) + " " + ClauseText(cs[n])
  }

  function JoinWords(words: seq<string>): string {
    if words == [] then "" else if |words| == 1 then words[0] else words[0] + " " + JoinWords(words[1..])
  }

  /** The words of a text between single spaces. */
  function Words(text: string): (r: seq<string>)
    ensures r != []
  {
    if text == "" then [""]
    else
      var rest := Words(text[1..]);
      if text[0] == ' ' then [""] + rest else [[text[0]] + rest[0]] + rest[1..]
  }

  lemma {:induction false} FirstWord(word: string, rest: string)
    requires ' ' !in word
    ensures Words(word + " " + rest) == [word] + Words(rest)
  {
    var text := word + " " + rest;
    if word == "" {
      assert text[1..] == rest;
    } else {
      assert text[1..] == word[1..] + " " + rest;
      FirstWord(word[1..], rest);
      assert [word[0]] + word[1..] == word;
    }
  }

  lemma {:induction false} OneWord(word: string)
    requires ' ' !in word
    ensures Words(word) == [word]
  {
    if word != "" {
      OneWord(word[1..]);
      assert [word[0]] + word[1..] == word;
    }
  }

  lemma {:induction false} WordsOfJoin(words: seq<string>)
    requires words != [] && forall w :: w in words ==> ' ' !in w
    ensures Words(JoinWords(words)) == words
  {
    if |words| == 1 {
      OneWord(words[0]);
    } else {
      WordsOfJoin(words[1..]);
      FirstWord(words[0], JoinWords(words[1..]));
    }
  }

  lemma {:induction false} JoinOfSum(a: seq<string>, b: seq<string>)
    requires a != [] && b != []
    ensures JoinWords(a + b) == JoinWords(a) + " " + JoinWords(b)
  {
    if |a| == 1 {
      assert (a + b)[1..] == b;
    } else {
      assert (a + b)[1..] == a[1..] + b;
      JoinOfSum(a[1..], b);
    }
  }

  function Tokens(c: Condition): seq<string> { [c.field, OperatorText(c.op), ":" + c.field] }

  /** The words the clause is meant to consist of. */
  function AllTokens(cs: seq<Condition>): seq<string> {
    if cs == [] then []
    else
      var n := |cs| - 1;
      if n == 0 then Tokens(cs[0]) else AllTokens(cs[..n]) + [LogicalText(cs[n].logic)] + Tokens(cs[n])
  }

  lemma ClauseWords(c: Condition)
    ensures ClauseText(c) == JoinWords(Tokens(c))
  {
    var t := Tokens(c);
    assert t[1..] == [t[1], t[2]] && t[1..][1..] == [t[2]];
    assert JoinWords(t[1..]) == t[1] + " " + JoinWords([t[2]]) == t[1] + " " + t[2];
    assert JoinWords(t) == t[0] + " " + (t[1] + " " + t[2]);
    assert t[0] + " " + (t[1] + " " + t[2]) == ClauseText(c);
  }

  lemma {:induction false} WhereJoins(cs: seq<Condition>)
    requires cs != []
    ensures AllTokens(cs) != [] && WhereText(cs) == JoinWords(AllTokens(cs))
  {
    var n := |cs| - 1;
    ClauseWords(cs[n]);
    if n > 0 {
      WhereJoins(cs[..n]);
      var front, logic := AllTokens(cs[..n]), [LogicalText(cs[n].logic)];
      JoinOfSum(front, logic);
      JoinOfSum(front + logic, Tokens(cs[n]));
      hide JoinWords, ClauseText, Tokens, LogicalText;
    }
  }

  predicate Spaceless(cs: seq<Condition>) { forall i :: 0 <= i < |cs| ==> ' ' !in cs[i].field }

  lemma {:induction false} TokensSpaceless(cs: seq<Condition>)
    requires Spaceless(cs)
    ensures forall w :: w in AllTokens(cs) ==> ' ' !in w
  {
    if cs != [] {
      var n := |cs| - 1;
      TokensSpaceless(cs[..n]);
      assert forall w :: w in Tokens(cs[n]) ==> ' ' !in w;
    }
  }

  /** Splitting the printed clause at its spaces gives back the intended words. */
  lemma WhereWords(cs: seq<Condition>)
    requires cs != [] && Spaceless(cs)
    ensures Words(WhereText(cs)) == AllTokens(cs)
  {
    WhereJoins(cs);
    TokensSpaceless(cs);
    WordsOfJoin(AllTokens(cs));
  }

  // ----- the grammar -----

  /** A comparison as it is written: a column, an operator's word, a placeholder's name. */
  datatype Test = Test(field: string, word: string, name: string)

  datatype Term = Lone(test: Test) | Both(left: Term, test: Test)

  datatype Search = Single(term: Term) | Either(left: Search, term: Term)

  function TestPhrase(t: Test): seq<string> { [t.field, t.word, ":" + t.name] }

  function TermPhrase(t: Term): (r: seq<string>)
    ensures |r| >= 3
  {
    match t
    case Lone(test) => TestPhrase(test)
    case Both(left, test) => TermPhrase(left) + ["AND"] + TestPhrase(test)
  }

  /** The words a search condition is written with. */
  function Phrase(s: Search): (r: seq<string>)
    ensures |r| >= 3
  {
    match s
    case Single(term) => TermPhrase(term)
    case Either(left, term) => Phrase(left) + ["OR"] + TermPhrase(term)
  }

  lemma TestUnique(t: Test, u: Test)
    requires TestPhrase(t) == TestPhrase(u)
    ensures t == u
  {
    var p, q := TestPhrase(t), TestPhrase(u);
    assert p[0] == q[0] && p[1] == q[1] && p[2] == q[2];
    assert p[2][1..] == t.name && q[2][1..] == u.name;
  }

  /** Sequences with equally long ends agree part by part. */
  lemma SplitEqual(a: seq<string>, x: string, b: seq<string>, a': seq<string>, x': string, b': seq<string>)
    requires a + [x] + b == a' + [x'] + b' && |b| == |b'|
    ensures a == a' && x == x' && b == b'
  {
    var all, all' := a + [x] + b, a' + [x'] + b';
    assert |a| == |a'|;
    assert a == all[..|a|] && a' == all'[..|a|];
    assert x == all[|a|] && x' == all'[|a|];
    assert b == all[|a| + 1..] && b' == all'[|a| + 1..];
  }

  /** The last test of a search condition, what it is joined with, and the rest. */
  datatype Last = Last(rest: Rest, test: Test)

  datatype Rest = Nothing | Joined(front: Search, logic: Logical)

  function SplitLast(s: Search): Last {
    match s
    case Single(Lone(test)) => Last(Nothing, test)
    case Single(Both(left, test)) => Last(Joined(Single(left), And), test)
    case Either(left, Lone(test)) => Last(Joined(left, Or), test)
    case Either(left, Both(term, test)) => Last(Joined(Either(left, term), And), test)
  }

  /** Adding a test at the end: AND binds tighter than OR. */
  function Extend(s: Search, logic: Logical, test: Test): Search {
    match logic
    case Or => Either(s, Lone(test))
    case And =>
      match s
      case Single(term) => Single(Both(term, test))
      case Either(left, term) => Either(left, Both(term, test))
  }

  lemma LastPhrase(s: Search)
    ensures
      match SplitLast(s)
      case Last(Nothing, test) => Phrase(s) == TestPhrase(test) && s == Single(Lone(test))
      case Last(Joined(front, logic), test) =>
        Phrase(s) == Phrase(front) + [LogicalText(logic)] + TestPhrase(test) && s == Extend(front, logic, test)
  {
  }

  /** A sequence of words has at most one reading. */
  lemma {:induction false} Unambiguous(s: Search, u: Search)
    requires Phrase(s) == Phrase(u)
    ensures s == u
    decreases |Phrase(s)|
  {
    var p, q := SplitLast(s), SplitLast(u);
    LastPhrase(s);
    LastPhrase(u);
    hide Phrase, SplitLast, Extend;
    assert |TestPhrase(p.test)| == 3 && |TestPhrase(q.test)| == 3;
    hide TestPhrase;
    match (p.rest, q.rest)
    case (Joined(f, l), Joined(g, m)) =>
      SplitEqual(Phrase(f), LogicalText(l), TestPhrase(p.test), Phrase(g), LogicalText(m), TestPhrase(q.test));
      assert l == m by { LogicalUnique(l, m); }
      TestUnique(p.test, q.test);
      Unambiguous(f, g);
    case (Nothing, Nothing) => TestUnique(p.test, q.test);
    case (Nothing, Joined(g, m)) =>
    case (Joined(f, l), Nothing) =>
  }

  lemma LogicalUnique(l: Logical, m: Logical)
    requires LogicalText(l) == LogicalText(m)
    ensures l == m
  {
  }

  function TestOf(c: Condition): Test { Test(c.field, OperatorText(c.op), c.field) }

  /** The conditions as a search condition. */
  function Tree(cs: seq<Condition>): Search
    requires cs != []
  {
    var n := |cs| - 1;
    if n == 0 then Single(Lone(TestOf(cs[0]))) else Extend(Tree(cs[..n]), cs[n].logic, TestOf(cs[n]))
  }

  lemma ExtendPhrase(s: Search, logic: Logical, test: Test)
    ensures Phrase(Extend(s, logic, test)) == Phrase(s) + [LogicalText(logic)] + TestPhrase(test)
  {
  }

  lemma {:induction false} TreePhrase(cs: seq<Condition>)
    requires cs != []
    ensures Phrase(Tree(cs)) == AllTokens(cs)
  {
    var n := |cs| - 1;
    if n > 0 {
      TreePhrase(cs[..n]);
      ExtendPhrase(Tree(cs[..n]), cs[n].logic, TestOf(cs[n]));
      hide Phrase, Extend;
    }
  }

  /** The printed clause has exactly one reading by the grammar. */
  lemma OneReading(cs: seq<Condition>, s: Search)
    requires cs != [] && Spaceless(cs)
    ensures Words(WhereText(cs)) == Phrase(s) <==> s == Tree(cs)
  {
    WhereWords(cs);
    TreePhrase(cs);
    if Words(WhereText(cs)) == Phrase(s) {
      Unambiguous(s, Tree(cs));
    }
  }

  // ----- what it means -----

  datatype Truth = False | Unknown | True

  function Conj(a: Truth, b: Truth): Truth {
    if a.False? || b.False? then False else if a.Unknown? || b.Unknown? then Unknown else True
  }

  function Disj(a: Truth, b: Truth): Truth {
    if a.True? || b.True? then True else if a.Unknown? || b.Unknown? then Unknown else False
  }

  function Compare(op: Operator, a: Value, b: Value): Truth {
    if a.Null? || b.Null? then Unknown
    else
      var holds :=
        match op
        case Equal => a.n == b.n
        case NotEqual => a.n != b.n
        case GreaterThan => a.n > b.n
        case LessThan => a.n < b.n
        case GreaterEqual => a.n >= b.n
        case LessEqual => a.n <= b.n;
      if holds then True else False
  }

  type Binding = map<string, Value>

  /** How SQL reads an operator's word. */
  function SqlCompare(word: string, a: Value, b: Value): Truth {
    if a.Null? || b.Null? then Unknown
    else
      var holds :=
        || (word == "=" && a.n == b.n)
        || (word == "!=" && a.n != b.n)
        || (word == "<" && a.n < b.n)
        || (word == ">" && a.n > b.n)
        || (word == "<=" && a.n <= b.n)
        || (word == ">=" && a.n >= b.n);
      if holds then True else False
  }

  /** The word printed for an operator is read as that operator. */
  lemma PrintedMeans(op: Operator, a: Value, b: Value)
    ensures SqlCompare(OperatorText(op), a, b) == Compare(op, a, b)
  {
    var w := OperatorText(op);
    assert w[0] == '=' || w[0] == '!' || w[0] == '<' || w[0] == '>';
    assert |w| == 1 || w[1] == '=';
  }

  /** The six operators on numbers. */
  lemma OperatorsMean(a: int, b: int)
    ensures Compare(Equal, Number(a), Number(b)).True? <==> a == b
    ensures Compare(NotEqual, Number(a), Number(b)).True? <==> a != b
    ensures Compare(GreaterThan, Number(a), Number(b)).True? <==> a > b
    ensures Compare(LessThan, Number(a), Number(b)).True? <==> a < b
    ensures Compare(GreaterEqual, Number(a), Number(b)).True? <==> a >= b
    ensures Compare(LessEqual, Number(a), Number(b)).True? <==> a <= b
  {
  }

  /** One condition with each operator, as it is printed. */
  lemma PrintedAs(field: string, value: Value, logic: Logical)
    ensures WhereText([Condition(field, Equal, value, logic)]) == field + " = :" + field
    ensures WhereText([Condition(field, NotEqual, value, logic)]) == field + " != :" + field
    ensures WhereText([Condition(field, GreaterThan, value, logic)]) == field + " > :" + field
    ensures WhereText([Condition(field, LessThan, value, logic)]) == field + " < :" + field
    ensures WhereText([Condition(field, GreaterEqual, value, logic)]) == field + " >= :" + field
    ensures WhereText([Condition(field, LessEqual, value, logic)]) == field + " <= :" + field
  {
    Spelled(field, "=", " = :");
    Spelled(field, "!=", " != :");
    Spelled(field, ">", " > :");
    Spelled(field, "<", " < :");
    Spelled(field, ">=", " >= :");
    Spelled(field, "<=", " <= :");
  }

  lemma Spelled(field: string, word: string, middle: string)
    requires middle == " " + word + " " + ":"
    ensures field + " " + word + " " + ":" + field == field + middle + field
  {
  }

  function TestTruth(t: Test, row: Row, bound: Binding): Truth {
    SqlCompare(t.word, row(t.field), if t.name in bound then bound[t.name] else Null)
  }

  function TermTruth(t: Term, row: Row, bound: Binding): Truth {
    match t
    case Lone(test) => TestTruth(test, row, bound)
    case Both(left, test) => Conj(TermTruth(left, row, bound), TestTruth(test, row, bound))
  }

  function SearchTruth(s: Search, row: Row, bound: Binding): Truth {
    match s
    case Single(term) => TermTruth(term, row, bound)
    case Either(left, term) => Disj(SearchTruth(left, row, bound), TermTruth(term, row, bound))
  }

  /** bindValue for every condition in turn: a placeholder keeps the last value given to its name. */
  function Bound(cs: seq<Condition>): Binding {
    if cs == [] then map[]
    else
      var n := |cs| - 1;
      Bound(cs[..n])[cs[n].field := cs[n].value]
  }

  /** The value of the last condition on the field. */
  function LastValue(cs: seq<Condition>, field: string): Value {
    if cs == [] then Null
    else
      var n := |cs| - 1;
      if cs[n].field == field then cs[n].value else LastValue(cs[..n], field)
  }

  lemma {:induction false} BoundIsLast(cs: seq<Condition>, field: string)
    ensures (if field in Bound(cs) then Bound(cs)[field] else Null) == LastValue(cs, field)
  {
    if cs != [] {
      BoundIsLast(cs[..|cs| - 1], field);
    }
  }

  /** The conditions of the same field agree on the value. */
  predicate Agree(cs: seq<Condition>) {
    forall i, j :: 0 <= i < j < |cs| && cs[i].field == cs[j].field ==> cs[i].value == cs[j].value
  }

  lemma {:induction false} LastValueFrom(cs: seq<Condition>, i: nat) returns (j: nat)
    requires i < |cs|
    ensures i <= j < |cs| && cs[j].field == cs[i].field && LastValue(cs, cs[i].field) == cs[j].value
    ensures forall k :: j < k < |cs| ==> cs[k].field != cs[i].field
  {
    var n := |cs| - 1;
    if cs[n].field == cs[i].field {
      j := n;
    } else {
      j := LastValueFrom(cs[..n], i);
    }
  }

  /** Each condition is compared with its own value exactly when no two conditions of one field disagree. */
  lemma OwnValueExactly(cs: seq<Condition>)
    ensures (forall i :: 0 <= i < |cs| ==> LastValue(cs, cs[i].field) == cs[i].value) <==> Agree(cs)
  {
  }

  /** The condition with a given value, on a row. */
  predicate Holds(c: Condition, value: Value, row: Row) { Compare(c.op, row(c.field), value).True? }

  /** Conditions i to j are a longest stretch joined by AND. */
  predicate Block(cs: seq<Condition>, i: nat, j: nat) {
    && i <= j < |cs|
    && (i == 0 || cs[i].logic.Or?)
    && (forall k :: i < k <= j ==> cs[k].logic.And?)
    && (j == |cs| - 1 || cs[j + 1].logic.Or?)
  }

  predicate AllHold(cs: seq<Condition>, i: nat, j: nat, row: Row, bound: Binding)
    requires i <= j < |cs|
  {
    forall k :: i <= k <= j ==> TestTruth(TestOf(cs[k]), row, bound).True?
  }

  /** A stretch joined by AND that ends at or before `last` holds throughout. */
  ghost predicate BlockHolds(cs: seq<Condition>, last: int, row: Row, bound: Binding) {
    exists i: nat, j: nat :: HoldsAt(cs, i, j, row, bound) && j <= last
  }

  predicate HoldsAt(cs: seq<Condition>, i: nat, j: nat, row: Row, bound: Binding) {
    Block(cs, i, j) && AllHold(cs, i, j, row, bound)
  }

  function LastStart(cs: seq<Condition>): (i: nat)
    requires cs != []
    ensures i < |cs|
  {
    var n := |cs| - 1;
    if n == 0 || cs[n].logic.Or? then n else LastStart(cs[..n])
  }

  lemma {:induction false} LastBlock(cs: seq<Condition>, i: nat, j: nat)
    requires cs != []
    ensures Block(cs, LastStart(cs), |cs| - 1)
    ensures Block(cs, i, j) && j >= LastStart(cs) ==> i == LastStart(cs) && j == |cs| - 1
  {
    var n := |cs| - 1;
    if n > 0 && cs[n].logic.And? {
      LastBlock(cs[..n], i, if j == n then n - 1 else j);
    }
  }

  lemma BlockFront(cs: seq<Condition>, i: nat, j: nat, row: Row, bound: Binding)
    requires |cs| > 1 && i <= j < |cs| - 1
    ensures Block(cs, i, j) <==> Block(cs[..|cs| - 1], i, j) && (j == |cs| - 2 ==> cs[|cs| - 1].logic.Or?)
    ensures AllHold(cs, i, j, row, bound) <==> AllHold(cs[..|cs| - 1], i, j, row, bound)
  {
  }

  /** Blocks that end before the last condition are those of the list without it, unless it joins the last one. */
  lemma BlockHoldsFront(cs: seq<Condition>, last: int, row: Row, bound: Binding)
    requires |cs| > 1 && last < |cs| - 1 && (last == |cs| - 2 ==> cs[|cs| - 1].logic.Or?)
    ensures BlockHolds(cs, last, row, bound) <==> BlockHolds(cs[..|cs| - 1], last, row, bound)
  {
    var front := cs[..|cs| - 1];
    hide Block, AllHold;
    forall i: nat, j: nat | j <= last
      ensures HoldsAt(cs, i, j, row, bound) <==> HoldsAt(front, i, j, row, bound)
    {
      if Block(cs, i, j) {
        BlockOrder(cs, i, j);
        BlockFront(cs, i, j, row, bound);
      }
      if Block(front, i, j) {
        BlockOrder(front, i, j);
        BlockFront(cs, i, j, row, bound);
      }
    }
    hide HoldsAt;
  }

  lemma BlockOrder(cs: seq<Condition>, i: nat, j: nat)
    requires Block(cs, i, j)
    ensures i <= j < |cs|
  {
  }

  predicate LeftTrue(s: Search, row: Row, bound: Binding) { s.Either? && SearchTruth(s.left, row, bound).True? }

  lemma SearchSplit(s: Search, row: Row, bound: Binding)
    ensures SearchTruth(s, row, bound).True? <==> LeftTrue(s, row, bound) || TermTruth(s.term, row, bound).True?
  {
  }

  lemma BlocksUpTo(cs: seq<Condition>, i: nat, j: nat, row: Row, bound: Binding)
    requires cs != [] && HoldsAt(cs, i, j, row, bound)
    ensures j < LastStart(cs) || AllHold(cs, LastStart(cs), |cs| - 1, row, bound)
  {
    LastBlock(cs, i, j);
    hide LastStart, Block, AllHold;
  }

  lemma LastHolds(cs: seq<Condition>, row: Row, bound: Binding)
    requires cs != [] && AllHold(cs, LastStart(cs), |cs| - 1, row, bound)
    ensures HoldsAt(cs, LastStart(cs), |cs| - 1, row, bound)
  {
    LastBlock(cs, 0, 0);
    hide LastStart, Block, AllHold;
  }

  lemma BlocksSplit(cs: seq<Condition>, row: Row, bound: Binding)
    requires cs != []
    ensures
      BlockHolds(cs, |cs| - 1, row, bound) <==>
      BlockHolds(cs, LastStart(cs) - 1, row, bound) || AllHold(cs, LastStart(cs), |cs| - 1, row, bound)
  {
    hide AllHold, LastStart, HoldsAt, Block;
    if BlockHolds(cs, |cs| - 1, row, bound) {
      var i: nat, j: nat :| HoldsAt(cs, i, j, row, bound) && j <= |cs| - 1;
      BlocksUpTo(cs, i, j, row, bound);
    }
    if AllHold(cs, LastStart(cs), |cs| - 1, row, bound) {
      LastHolds(cs, row, bound);
    }
  }

  /** The two parts of the tree against the blocks of the list. */
  ghost predicate Matches(s: Search, cs: seq<Condition>, row: Row, bound: Binding)
    requires cs != []
  {
    && (TermTruth(s.term, row, bound).True? <==> AllHold(cs, LastStart(cs), |cs| - 1, row, bound))
    && (LeftTrue(s, row, bound) <==> BlockHolds(cs, LastStart(cs) - 1, row, bound))
  }

  lemma MatchesAnd(s: Search, cs: seq<Condition>, row: Row, bound: Binding)
    requires |cs| > 1 && cs[|cs| - 1].logic.And? && Matches(s, cs[..|cs| - 1], row, bound)
    ensures Matches(Extend(s, And, TestOf(cs[|cs| - 1])), cs, row, bound)
  {
    ExtendTruth(s, And, TestOf(cs[|cs| - 1]), row, bound);
    BlockHoldsFront(cs, LastStart(cs) - 1, row, bound);
    AllHoldMore(cs, LastStart(cs), row, bound);
    hide AllHold, BlockHolds, TestTruth, Extend, TermTruth, LeftTrue;
  }

  lemma MatchesOr(s: Search, cs: seq<Condition>, row: Row, bound: Binding)
    requires |cs| > 1 && cs[|cs| - 1].logic.Or? && Matches(s, cs[..|cs| - 1], row, bound)
    ensures Matches(Extend(s, Or, TestOf(cs[|cs| - 1])), cs, row, bound)
  {
    var n := |cs| - 1;
    ExtendTruth(s, Or, TestOf(cs[n]), row, bound);
    SearchSplit(s, row, bound);
    BlocksSplit(cs[..n], row, bound);
    BlockHoldsFront(cs, n - 1, row, bound);
    OneHolds(cs, n, row, bound);
    hide AllHold, BlockHolds, TestTruth, Extend, TermTruth, LeftTrue, SearchTruth;
  }

  lemma {:induction false} TreeBlocks(cs: seq<Condition>, row: Row, bound: Binding)
    requires cs != []
    ensures Matches(Tree(cs), cs, row, bound)
  {
    var n := |cs| - 1;
    if n > 0 {
      hide Matches, Extend;
      TreeBlocks(cs[..n], row, bound);
      if cs[n].logic.And? {
        MatchesAnd(Tree(cs[..n]), cs, row, bound);
      } else {
        MatchesOr(Tree(cs[..n]), cs, row, bound);
      }
    } else {
      OneHolds(cs, 0, row, bound);
    }
  }

  lemma OneHolds(cs: seq<Condition>, i: nat, row: Row, bound: Binding)
    requires i < |cs|
    ensures AllHold(cs, i, i, row, bound) <==> TestTruth(TestOf(cs[i]), row, bound).True?
  {
    hide TestTruth;
  }

  /** What one more test does to the two parts of a search condition. */
  lemma ExtendTruth(s: Search, logic: Logical, test: Test, row: Row, bound: Binding)
    ensures
      var e := Extend(s, logic, test);
      if logic.And? then
        (TermTruth(e.term, row, bound).True? <==>
           TermTruth(s.term, row, bound).True? && TestTruth(test, row, bound).True?)
        && LeftTrue(e, row, bound) == LeftTrue(s, row, bound)
      else
        (TermTruth(e.term, row, bound).True? <==> TestTruth(test, row, bound).True?)
        && LeftTrue(e, row, bound) == SearchTruth(s, row, bound).True?
  {
    hide TestTruth;
  }

  lemma AllHoldMore(cs: seq<Condition>, i: nat, row: Row, bound: Binding)
    requires |cs| > 1 && i < |cs| - 1
    ensures
      var n := |cs| - 1;
      AllHold(cs, i, n, row, bound) <==>
      AllHold(cs[..n], i, n - 1, row, bound) && TestTruth(TestOf(cs[n]), row, bound).True?
  {
  }

  /**
  Whatever reading the printed clause is given, a row is selected exactly when all conditions of some stretch joined
  by AND hold of it, each with the last value bound to its field.
  */
  lemma WhereMeans(cs: seq<Condition>, s: Search, row: Row)
    requires cs != [] && Spaceless(cs) && Words(WhereText(cs)) == Phrase(s)
    ensures
      SearchTruth(s, row, Bound(cs)).True? <==>
      exists i: nat, j: nat ::
        Block(cs, i, j) && forall k :: i <= k <= j ==> Holds(cs[k], LastValue(cs, cs[k].field), row)
  {
    var bound := Bound(cs);
    OneReading(cs, s);
    TreeBlocks(cs, row, bound);
    SearchSplit(s, row, bound);
    BlocksSplit(cs, row, bound);
    forall i: nat, j: nat
      ensures
        HoldsAt(cs, i, j, row, bound) <==>
        Block(cs, i, j) && forall k :: i <= k <= j ==> Holds(cs[k], LastValue(cs, cs[k].field), row)
    {
      HoldsMeans(cs, i, j, row);
    }
    hide Phrase, Words, WhereText, SearchTruth, TermTruth, Bound, Block, Holds, LastValue, Tree, HoldsAt;
    hide AllHold, LastStart, LeftTrue;
    assert SearchTruth(s, row, bound).True? <==> BlockHolds(cs, |cs| - 1, row, bound);
    forall i: nat, j: nat | HoldsAt(cs, i, j, row, bound)
      ensures j <= |cs| - 1
    {
      BlockOrder(cs, i, j);
    }
  }

  lemma HoldsMeans(cs: seq<Condition>, i: nat, j: nat, row: Row)
    ensures
      HoldsAt(cs, i, j, row, Bound(cs)) <==>
      Block(cs, i, j) && forall k :: i <= k <= j ==> Holds(cs[k], LastValue(cs, cs[k].field), row)
  {
    if Block(cs, i, j) {
      BlockOrder(cs, i, j);
      forall k | i <= k <= j
        ensures TestTruth(TestOf(cs[k]), row, Bound(cs)).True? <==> Holds(cs[k], LastValue(cs, cs[k].field), row)
      {
        BoundIsLast(cs, cs[k].field);
        PrintedMeans(cs[k].op, row(cs[k].field), LastValue(cs, cs[k].field));
      }
      hide Block, TestTruth, Holds, LastValue, Bound, TestOf;
    }
  }

  /** With one value per field every condition is compared with its own. */
  lemma WhereMeansOwn(cs: seq<Condition>, s: Search, row: Row)
    requires cs != [] && Spaceless(cs) && Words(WhereText(cs)) == Phrase(s) && Agree(cs)
    ensures
      SearchTruth(s, row, Bound(cs)).True? <==>
      exists i: nat, j: nat :: Block(cs, i, j) && forall k :: i <= k <= j ==> Holds(cs[k], cs[k].value, row)
  {
    WhereMeans(cs, s, row);
    OwnValueExactly(cs);
  }

  /** A time range put on one column: both placeholders get the upper end, so only rows at that end are selected. */
  lemma RangeCollapses(field: string, from: Value, to: Value, row: Row, s: Search)
    requires ' ' !in field && to.Number?
    requires
      var cs := [Condition(field, GreaterEqual, from, And), Condition(field, LessEqual, to, And)];
      Words(WhereText(cs)) == Phrase(s)
    ensures
      var cs := [Condition(field, GreaterEqual, from, And), Condition(field, LessEqual, to, And)];
      SearchTruth(s, row, Bound(cs)).True? <==> row(field) == to
  {
    var cs := [Condition(field, GreaterEqual, from, And), Condition(field, LessEqual, to, And)];
    WhereMeans(cs, s, row);
    hide Words, WhereText, Phrase, SearchTruth;
    assert LastValue(cs, field) == to;
    assert Block(cs, 0, 1);
    assert forall i: nat, j: nat :: Block(cs, i, j) ==> i == 0 && j == 1;
    assert (forall k :: 0 <= k <= 1 ==> Holds(cs[k], to, row)) <==> Holds(cs[0], to, row) && Holds(cs[1], to, row);
  }

  // ----- what one more condition does -----

  /** No condition is on the field yet. */
  predicate NewField(cs: seq<Condition>, field: string) { forall i :: 0 <= i < |cs| ==> cs[i].field != field }

  lemma {:induction false} BoundFields(cs: seq<Condition>, field: string)
    ensures field in Bound(cs) <==> exists i :: 0 <= i < |cs| && cs[i].field == field
  {
    if cs != [] {
      var n := |cs| - 1;
      BoundFields(cs[..n], field);
      assert forall i :: 0 <= i < n ==> cs[..n][i] == cs[i];
      if field in Bound(cs[..n]) {
        var i :| 0 <= i < n && cs[..n][i].field == field;
        assert cs[i].field == field;
      }
    }
  }

  /** Values bound to other names do not matter to a test. */
  lemma {:induction false} TreeIgnores(cs: seq<Condition>, row: Row, bound: Binding, field: string, value: Value)
    requires cs != [] && NewField(cs, field)
    ensures TermTruth(Tree(cs).term, row, bound[field := value]) == TermTruth(Tree(cs).term, row, bound)
    ensures SearchTruth(Tree(cs), row, bound[field := value]) == SearchTruth(Tree(cs), row, bound)
    ensures Tree(cs).Either? ==>
      SearchTruth(Tree(cs).left, row, bound[field := value]) == SearchTruth(Tree(cs).left, row, bound)
  {
    var n := |cs| - 1;
    if n > 0 {
      TreeIgnores(cs[..n], row, bound, field, value);
    }
  }

  /** The condition with its own value. */
  function OwnTruth(c: Condition, row: Row): Truth { Compare(c.op, row(c.field), c.value) }

  predicate Selected(cs: seq<Condition>, row: Row) { cs == [] || SearchTruth(Tree(cs), row, Bound(cs)).True? }

  /**
  A condition on a new field added with OR widens the selection by its rows; added with AND it narrows the last stretch
  joined by AND and leaves the earlier ones alone, so it narrows the whole selection when there is no OR.
  */
  lemma WhereAdds(cs: seq<Condition>, c: Condition, row: Row)
    requires cs != [] && NewField(cs, c.field)
    ensures c.logic.Or? ==> (Selected(cs + [c], row) <==> Selected(cs, row) || OwnTruth(c, row).True?)
    ensures c.logic.And? ==>
      (Selected(cs + [c], row) <==>
       LeftTrue(Tree(cs), row, Bound(cs))
       || (TermTruth(Tree(cs).term, row, Bound(cs)).True? && OwnTruth(c, row).True?))
    ensures c.logic.And? && Tree(cs).Single? ==>
      (Selected(cs + [c], row) <==> Selected(cs, row) && OwnTruth(c, row).True?)
  {
    var all := cs + [c];
    assert all[..|cs|] == cs;
    TreeIgnores(cs, row, Bound(cs), c.field, c.value);
    SearchSplit(Tree(cs), row, Bound(cs));
    SearchSplit(Tree(all), row, Bound(all));
    assert Bound(all) == Bound(cs)[c.field := c.value];
    PrintedMeans(c.op, row(c.field), c.value);
    assert TestTruth(TestOf(c), row, Bound(all)) == OwnTruth(c, row);
  }

  // ----- precedence against the order of the calls -----

  /** The reading a chain of calls suggests: each condition joined to everything before it. */
  function InCallOrder(truths: seq<bool>, logic: seq<Logical>): bool
    requires |truths| == |logic|
  {
    if truths == [] then true
    else
      var n := |truths| - 1;
      if n == 0 then truths[0]
      else if logic[n].And? then InCallOrder(truths[..n], logic[..n]) && truths[n]
      else InCallOrder(truths[..n], logic[..n]) || truths[n]
  }

  /** The reading with AND above OR: whether a block before the last holds, and whether the last one does. */
  function ByGrammar(truths: seq<bool>, logic: seq<Logical>): (bool, bool)
    requires |truths| == |logic|
  {
    if truths == [] then (false, true)
    else
      var n := |truths| - 1;
      if n == 0 then (false, truths[0])
      else
        var (earlier, last) := ByGrammar(truths[..n], logic[..n]);
        if logic[n].And? then (earlier, last && truths[n]) else (earlier || last, truths[n])
  }

  function Selects(truths: seq<bool>, logic: seq<Logical>): bool
    requires |truths| == |logic|
  {
    ByGrammar(truths, logic).0 || ByGrammar(truths, logic).1
  }

  /** No AND comes after an OR; the first entry joins nothing. */
  predicate AndsFirst(logic: seq<Logical>) { forall i, j :: 1 <= i < j < |logic| && logic[i].Or? ==> logic[j].Or? }

  lemma {:induction false} AndsFirstAgree(truths: seq<bool>, logic: seq<Logical>)
    requires |truths| == |logic| && AndsFirst(logic)
    ensures Selects(truths, logic) == InCallOrder(truths, logic)
    ensures (forall i :: 1 <= i < |logic| ==> logic[i].And?) ==> !ByGrammar(truths, logic).0
  {
    if |truths| > 1 {
      var n := |truths| - 1;
      AndsFirstAgree(truths[..n], logic[..n]);
      assert forall i :: 0 <= i < n ==> logic[..n][i] == logic[i];
    }
  }

  /** True up to condition p, false after it. */
  function Separating(n: nat, p: nat): seq<bool> { seq(n, i => i <= p) }

  lemma SeparatingFront(n: nat, p: nat)
    requires n > 0
    ensures Separating(n, p)[..n - 1] == Separating(n - 1, p)
    ensures Separating(n, p)[n - 1] <==> n - 1 <= p
  {
  }

  lemma {:induction false} AllTrue(logic: seq<Logical>, n: nat, p: nat)
    requires |logic| == n <= p + 1
    ensures InCallOrder(Separating(n, p), logic) && ByGrammar(Separating(n, p), logic).1
  {
    if n > 0 {
      SeparatingFront(n, p);
      AllTrue(logic[..n - 1], n - 1, p);
    }
  }

  lemma {:induction false} ReadingsDiffer(logic: seq<Logical>, n: nat, p: nat)
    requires |logic| == n >= p + 2 && 1 <= p && logic[p].Or? && logic[p + 1].And?
    ensures !InCallOrder(Separating(n, p), logic) && ByGrammar(Separating(n, p), logic).0
  {
    SeparatingFront(n, p);
    var front := logic[..n - 1];
    if n == p + 2 {
      AllTrue(front, n - 1, p);
      SeparatingFront(n - 1, p);
      AllTrue(front[..n - 2], n - 2, p);
    } else {
      ReadingsDiffer(front, n - 1, p);
    }
  }

  lemma OrThenAnd(logic: seq<Logical>, i: nat, j: nat) returns (p: nat)
    requires 1 <= i < j < |logic| && logic[i].Or? && logic[j].And?
    ensures 1 <= p < |logic| - 1 && logic[p].Or? && logic[p + 1].And?
    decreases j - i
  {
    if logic[i + 1].And? {
      p := i;
    } else {
      p := OrThenAnd(logic, i + 1, j);
    }
  }

  /** The grammar and the order of the calls agree on all truth values exactly when no AND comes after an OR. */
  lemma PrecedenceExactly(logic: seq<Logical>)
    ensures
      (forall truths: seq<bool> :: |truths| == |logic| ==> Selects(truths, logic) == InCallOrder(truths, logic))
      <==> AndsFirst(logic)
  {
    if AndsFirst(logic) {
      forall truths: seq<bool> | |truths| == |logic|
        ensures Selects(truths, logic) == InCallOrder(truths, logic)
      {
        AndsFirstAgree(truths, logic);
      }
    } else {
      var i, j :| 1 <= i < j < |logic| && logic[i].Or? && !logic[j].Or?;
      var p := OrThenAnd(logic, i, j);
      ReadingsDiffer(logic, |logic|, p);
      assert Selects(Separating(|logic|, p), logic) != InCallOrder(Separating(|logic|, p), logic);
    }
  }

  /** The truths of the conditions on a row. */
  function Truths(cs: seq<Condition>, row: Row, bound: Binding): (r: seq<bool>)
    ensures |r| == |cs| && forall i :: 0 <= i < |r| ==> r[i] == TestTruth(TestOf(cs[i]), row, bound).True?
  {
    seq(|cs|, i requires 0 <= i < |cs| => TestTruth(TestOf(cs[i]), row, bound).True?)
  }

  function Logics(cs: seq<Condition>): (r: seq<Logical>)
    ensures |r| == |cs| && forall i :: 0 <= i < |r| ==> r[i] == cs[i].logic
  {
    seq(|cs|, i requires 0 <= i < |cs| => cs[i].logic)
  }

  lemma ByGrammarMore(truths: seq<bool>, logic: seq<Logical>, b: bool, l: Logical)
    requires |truths| == |logic| > 0
    ensures
      var (earlier, last) := ByGrammar(truths, logic);
      ByGrammar(truths + [b], logic + [l]) == if l.And? then (earlier, last && b) else (earlier || last, b)
  {
    assert (truths + [b])[..|truths|] == truths && (logic + [l])[..|logic|] == logic;
  }

  lemma {:induction false} SelectsIsSearch(cs: seq<Condition>, row: Row, bound: Binding)
    requires cs != []
    ensures
      ByGrammar(Truths(cs, row, bound), Logics(cs))
      == (LeftTrue(Tree(cs), row, bound), TermTruth(Tree(cs).term, row, bound).True?)
  {
    var n := |cs| - 1;
    if n > 0 {
      hide TestTruth;
      var front, test := cs[..n], TestOf(cs[n]);
      var truths, logic, b := Truths(front, row, bound), Logics(front), TestTruth(test, row, bound).True?;
      SelectsIsSearch(front, row, bound);
      SearchSplit(Tree(front), row, bound);
      ExtendTruth(Tree(front), cs[n].logic, test, row, bound);
      assert Truths(cs, row, bound) == truths + [b];
      assert Logics(cs) == logic + [cs[n].logic];
      ByGrammarMore(truths, logic, b, cs[n].logic);
      hide Truths, Logics, Extend, SearchTruth, TermTruth, LeftTrue, ByGrammar, TestOf;
    }
  }

  // ----- pages -----

  /** LIMIT and OFFSET, or none of them for a page or size that is not positive. */
  function Paged<T>(rows: seq<T>, page: int, pageSize: int): seq<T> {
    if page > 0 && pageSize > 0 then
      assert (page - 1) * pageSize >= 0;
      var offset := (page - 1) * pageSize;
      if offset >= |rows| then [] else Taken(rows[offset..], pageSize)
    else rows
  }

  function Taken<T>(rows: seq<T>, limit: nat): seq<T> { if |rows| <= limit then rows else rows[..limit] }

  function Pages<T>(rows: seq<T>, k: nat, pageSize: nat): seq<T> {
    if k == 0 then [] else Pages(rows, k - 1, pageSize) + Paged(rows, k, pageSize)
  }

  lemma TakenMore<T>(rows: seq<T>, a: nat, b: nat)
    ensures Taken(rows, a) + (if a >= |rows| then [] else Taken(rows[a..], b)) == Taken(rows, a + b)
  {
  }

  /** Pages 1 to k in a row are the first k pages' worth of rows: nothing repeated, nothing skipped. */
  lemma {:induction false} PagesConcatenate<T>(rows: seq<T>, k: nat, pageSize: nat)
    requires pageSize > 0
    ensures Pages(rows, k, pageSize) == Taken(rows, k * pageSize)
  {
    if k > 0 {
      PagesConcatenate(rows, k - 1, pageSize);
      var offset := (k - 1) * pageSize;
      assert offset >= 0 && k * pageSize == offset + pageSize;
      TakenMore(rows, offset, pageSize);
    }
  }

  lemma WhereUnfolds(cs: seq<Condition>, c: Condition)
    ensures
      WhereText(cs + [c])
      == if cs == [] then ClauseText(c) else WhereText(cs) + " " + LogicalText(c.logic) + " " + ClauseText(c)
  {
    assert (cs + [c])[..|cs|] == cs;
    hide ClauseText, LogicalText;
  }

  lemma Regrouped(text: string, logic: string, clause: string)
    ensures text + " " + (logic + " " + clause) == text + " " + logic + " " + clause
  {
  }

  lemma WhereMore(clauses: seq<string>, cs: seq<Condition>, c: Condition)
    requires |clauses| == |cs| && JoinWords(clauses) == WhereText(cs)
    ensures
      var clause := if clauses == [] then ClauseText(c) else LogicalText(c.logic) + " " + ClauseText(c);
      JoinWords(clauses + [clause]) == WhereText(cs + [c])
  {
    hide JoinWords, WhereText, ClauseText, LogicalText;
    WhereUnfolds(cs, c);
    if clauses == [] {
      OneJoined(ClauseText(c));
      assert clauses + [ClauseText(c)] == [ClauseText(c)];
    } else {
      var clause := LogicalText(c.logic) + " " + ClauseText(c);
      OneJoined(clause);
      JoinOfSum(clauses, [clause]);
      Regrouped(WhereText(cs), LogicalText(c.logic), ClauseText(c));
    }
  }

  lemma OneJoined(w: string)
    ensures JoinWords([w]) == w
  {
  }

  class SqlSelect {
    var conditions: seq<Condition>

    constructor ()
      ensures conditions == []
    {
      conditions := [];
    }

    /** The first condition joins nothing, so its logical operator is dropped. */
    method Where(field: string, op: Operator, value: Value, logic: Logical)
      modifies this`conditions
      ensures conditions
              == old(conditions) + [Condition(field, op, value, if old(conditions) == [] then And else logic)]
      ensures forall row: Row :: old(conditions) == [] ==>
        (Selected(conditions, row) <==> Compare(op, row(field), value).True?)
      ensures forall row: Row :: old(conditions) != [] && NewField(old(conditions), field) && logic.Or? ==>
        (Selected(conditions, row) <==> Selected(old(conditions), row) || Compare(op, row(field), value).True?)
      ensures old(conditions) != [] && NewField(old(conditions), field) && logic.And? ==>
        forall row: Row :: Tree(old(conditions)).Single? ==>
        (Selected(conditions, row) <==> Selected(old(conditions), row) && Compare(op, row(field), value).True?)
    {
      ghost var cs, c := conditions, Condition(field, op, value, logic);
      if conditions == [] {
        conditions := conditions + [Condition(field, op, value, And)];
      } else {
        conditions := conditions + [Condition(field, op, value, logic)];
        forall row: Row | NewField(cs, field)
          ensures c.logic.Or? ==> (Selected(cs + [c], row) <==> Selected(cs, row) || OwnTruth(c, row).True?)
          ensures c.logic.And? && Tree(cs).Single? ==>
            (Selected(cs + [c], row) <==> Selected(cs, row) && OwnTruth(c, row).True?)
        {
          WhereAdds(cs, c, row);
        }
        hide Selected, NewField, Tree;
      }
    }

    method BuildWhereClause() returns (text: string)
      ensures text == WhereText(conditions)
      ensures conditions != [] && Spaceless(conditions) ==> Words(text) == AllTokens(conditions)
    {
      var clauses: seq<string> := [];
      var i := 0;
      assert JoinWords(clauses) == WhereText(conditions[..i]);
      hide JoinWords, WhereText;
      while i < |conditions|
        invariant 0 <= i == |clauses| <= |conditions|
        invariant JoinWords(clauses) == WhereText(conditions[..i])
      {
        var c := conditions[i];
        var clause := c.field + " " + OperatorText(c.op) + " " + ":" + c.field;
        assert clause == ClauseText(c);
        hide ClauseText, OperatorText;
        WhereMore(clauses, conditions[..i], c);
        if clauses != [] {
          clause := LogicalText(c.logic) + " " + clause;
        }
        clauses := clauses + [clause];
        assert conditions[..i + 1] == conditions[..i] + [c];
        i := i + 1;
      }
      assert conditions[..i] == conditions;
      text := JoinWords(clauses);
      if conditions != [] && Spaceless(conditions) {
        WhereWords(conditions);
      }
    }

    /** The values exec binds, in the order it binds them. */
    method Bind() returns (bound: Binding)
      ensures bound == Bound(conditions)
      ensures forall i :: 0 <= i < |conditions| ==>
        conditions[i].field in bound && bound[conditions[i].field] == LastValue(conditions, conditions[i].field)
    {
      bound := map[];
      var i := 0;
      while i < |conditions|
        invariant 0 <= i <= |conditions| && bound == Bound(conditions[..i])
        invariant forall k :: 0 <= k < i ==> conditions[k].field in bound
      {
        assert conditions[..i + 1][..i] == conditions[..i];
        bound := bound[conditions[i].field := conditions[i].value];
        i := i + 1;
      }
      assert conditions[..i] == conditions;
      forall k | 0 <= k < |conditions|
        ensures bound[conditions[k].field] == LastValue(conditions, conditions[k].field)
      {
        BoundIsLast(conditions, conditions[k].field);
      }
    }
  }
}
