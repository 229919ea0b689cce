/** The locator matcher: a recursive query over an accessibility tree.

Text comparison and role normalisation are oracles collected in `Lexicon`; nothing here depends on how
they work. */
module Locator {
  import opened Common

  type Token = string

  datatype StatePredicate = StatePredicate(token: Token, expected: Option<bool>)

  datatype Query = Query(
    role: Option<string>, name: Option<string>, description: Option<string>, nativeId: Option<string>,
    value: Option<string>,
    hasText: Option<string>, exact: bool, states: seq<StatePredicate>, has: Option<Query>, hasNot: Option<Query>)

  datatype Own = Own(role: string, name: Option<string>, description: Option<string>, nativeId: Option<string>,
                     value: Option<string>, states: set<Token>)

  datatype Node = Node(own: Own, children: seq<Node>)

  /** `textMatches(actual, expected, exact)` and the role a query role stands for. */
  datatype Lexicon = Lexicon(textMatches: (string, string, bool) -> bool, normalizeRole: string -> string)

  // ---------------------------------------------------------------- the matcher

  predicate TextFieldMatches(lex: Lexicon, expected: Option<string>, actual: Option<string>, exact: bool) {
    expected.None? || (actual.Some? && lex.textMatches(actual.value, expected.value, exact))
  }

  predicate StatePredicatesMatch(predicates: seq<StatePredicate>, states: set<Token>) {
    forall i :: 0 <= i < |predicates| ==>
      ((if predicates[i].expected.Some? then predicates[i].expected.value else true) == (predicates[i].token in states))
  }

  /** Everything that looks at the node alone. */
  predicate OwnMatches(lex: Lexicon, q: Query, own: Own) {
    && (q.role.None? || lex.normalizeRole(q.role.value) == own.role)
    && TextFieldMatches(lex, q.name, own.name, q.exact)
    && TextFieldMatches(lex, q.description, own.description, q.exact)
    && (q.nativeId.None? || own.nativeId == q.nativeId)
    && TextFieldMatches(lex, q.value, own.value, q.exact)
    && StatePredicatesMatch(q.states, own.states)
  }

  predicate OwnHasText(lex: Lexicon, expected: string, own: Own, exact: bool) {
    || (own.name.Some? && lex.textMatches(own.name.value, expected, exact))
    || (own.description.Some? && lex.textMatches(own.description.value, expected, exact))
    || (own.value.Some? && lex.textMatches(own.value.value, expected, exact))
  }

  predicate HasText(lex: Lexicon, expected: string, node: Node, exact: bool) {
    OwnHasText(lex, expected, node.own, exact)
    || exists i :: 0 <= i < |node.children| && HasText(lex, expected, node.children[i], exact)
  }

  predicate HasTextMatches(lex: Lexicon, expected: Option<string>, node: Node, exact: bool) {
    expected.None? || HasText(lex, expected.value, node, exact)
  }

  predicate NodeMatches(lex: Lexicon, q: Query, node: Node)
    decreases q, node, 1
  {
    && OwnMatches(lex, q, node.own)
    && HasTextMatches(lex, q.hasText, node, q.exact)
    && (q.has.Some? ==> SubtreeContains(lex, q.has.value, node))
    && (q.hasNot.Some? ==> !SubtreeContains(lex, q.hasNot.value, node))
  }

  /** Some child matches, or some child's subtree contains a match. */
  predicate SubtreeContains(lex: Lexicon, q: Query, node: Node)
    decreases q, node, 0
  {
    exists i :: 0 <= i < |node.children|
                && (NodeMatches(lex, q, node.children[i]) || SubtreeContains(lex, q, node.children[i]))
  }

  // ---------------------------------------------------------------- paths

  /** A path of child indexes that exists in the tree. */
  predicate IsPath(node: Node, path: seq<nat>)
    decreases |path|
  {
    path == [] || (path[0] < |node.children| && IsPath(node.children[path[0]], path[1..]))
  }

  function NodeAt(node: Node, path: seq<nat>): Node
    requires IsPath(node, path)
    decreases |path|
  {
    if path == [] then node else NodeAt(node.children[path[0]], path[1..])
  }

  lemma ChildPath(node: Node, i: nat, path: seq<nat>)
    requires i < |node.children| && IsPath(node.children[i], path)
    ensures IsPath(node, [i] + path) && NodeAt(node, [i] + path) == NodeAt(node.children[i], path)
  {
    assert ([i] + path)[1..] == path;
  }

  predicate MatchesAt(lex: Lexicon, q: Query, node: Node, path: seq<nat>) {
    IsPath(node, path) && NodeMatches(lex, q, NodeAt(node, path))
  }

  predicate TextAt(lex: Lexicon, expected: string, node: Node, exact: bool, path: seq<nat>) {
    IsPath(node, path) && OwnHasText(lex, expected, NodeAt(node, path).own, exact)
  }

  /** `has` and `has_not` look at exactly the strict descendants. */
  lemma SubtreeContainsIsDescendant(lex: Lexicon, q: Query, node: Node)
    ensures SubtreeContains(lex, q, node) <==> exists path :: path != [] && MatchesAt(lex, q, node, path)
  {
    if SubtreeContains(lex, q, node) {
      var path := FindDescendant(lex, q, node);
    }
    forall path | path != [] && MatchesAt(lex, q, node, path)
      ensures SubtreeContains(lex, q, node)
    {
      DescendantIsContained(lex, q, node, path);
    }
  }

  lemma {:induction false} FindDescendant(lex: Lexicon, q: Query, node: Node) returns (path: seq<nat>)
    requires SubtreeContains(lex, q, node)
    ensures path != [] && MatchesAt(lex, q, node, path)
    decreases node
  {
    var i :| 0 <= i < |node.children|
             && (NodeMatches(lex, q, node.children[i]) || SubtreeContains(lex, q, node.children[i]));
    var rest := [];
    if !NodeMatches(lex, q, node.children[i]) {
      rest := FindDescendant(lex, q, node.children[i]);
    }
    ChildPath(node, i, rest);
    path := [i] + rest;
  }

  lemma {:induction false} DescendantIsContained(lex: Lexicon, q: Query, node: Node, path: seq<nat>)
    requires path != [] && MatchesAt(lex, q, node, path)
    ensures SubtreeContains(lex, q, node)
    decreases |path|
  {
    var child, rest := node.children[path[0]], path[1..];
    assert NodeAt(node, path) == NodeAt(child, rest);
    if rest != [] {
      DescendantIsContained(lex, q, child, rest);
    }
    assert NodeMatches(lex, q, child) || SubtreeContains(lex, q, child);
  }

  /** Text is looked for in the node itself and in every descendant. */
  lemma HasTextIsSomewhere(lex: Lexicon, expected: string, node: Node, exact: bool)
    ensures HasText(lex, expected, node, exact) <==> exists path :: TextAt(lex, expected, node, exact, path)
  {
    if HasText(lex, expected, node, exact) {
      var path := FindText(lex, expected, node, exact);
    }
    forall path | TextAt(lex, expected, node, exact, path)
      ensures HasText(lex, expected, node, exact)
    {
      TextIsFound(lex, expected, node, exact, path);
    }
  }

  lemma {:induction false} FindText(lex: Lexicon, expected: string, node: Node, exact: bool) returns (path: seq<nat>)
    requires HasText(lex, expected, node, exact)
    ensures TextAt(lex, expected, node, exact, path)
    decreases node
  {
    path := [];
    if !OwnHasText(lex, expected, node.own, exact) {
      var i :| 0 <= i < |node.children| && HasText(lex, expected, node.children[i], exact);
      path := FindText(lex, expected, node.children[i], exact);
      ChildPath(node, i, path);
      path := [i] + path;
    }
  }

  lemma {:induction false} TextIsFound(lex: Lexicon, expected: string, node: Node, exact: bool, path: seq<nat>)
    requires TextAt(lex, expected, node, exact, path)
    ensures HasText(lex, expected, node, exact)
    decreases |path|
  {
    if path != [] {
      var child, rest := node.children[path[0]], path[1..];
      assert NodeAt(node, path) == NodeAt(child, rest);
      TextIsFound(lex, expected, child, exact, rest);
      assert HasText(lex, expected, child, exact);
    }
  }

  // ---------------------------------------------------------------- growing trees

  /** `big` is `small` with descendants added anywhere: the same node, and the children of `small` embed
  in order among those of `big`, each grown the same way. */
  predicate Grows(small: Node, big: Node)
    decreases small, 1, |big.children|
  {
    small.own == big.own && ChildrenGrow(small, big, 0, 0)
  }

  /** The children of `small` from `i` on embed among those of `big` from `j` on. */
  predicate ChildrenGrow(small: Node, big: Node, i: nat, j: nat)
    requires i <= |small.children| && j <= |big.children|
    decreases small, 0, |big.children| - j
  {
    i == |small.children|
    || (j < |big.children|
        && ((Grows(small.children[i], big.children[j]) && ChildrenGrow(small, big, i + 1, j + 1))
            || ChildrenGrow(small, big, i, j + 1)))
  }

  lemma {:induction false} GrownChild(small: Node, big: Node, i: nat, j: nat, k: nat) returns (l: nat)
    requires i <= k < |small.children| && j <= |big.children| && ChildrenGrow(small, big, i, j)
    ensures j <= l < |big.children| && Grows(small.children[k], big.children[l])
    decreases |big.children| - j
  {
    if Grows(small.children[i], big.children[j]) && ChildrenGrow(small, big, i + 1, j + 1) {
      if k == i {
        l := j;
      } else {
        l := GrownChild(small, big, i + 1, j + 1, k);
      }
    } else {
      l := GrownChild(small, big, i, j + 1, k);
    }
  }

  /** Adding a child, anywhere, is growth. */
  lemma AddingAChildGrows(node: Node, at: nat, child: Node)
    requires at <= |node.children|
    ensures Grows(node, node.(children := node.children[..at] + [child] + node.children[at..]))
  {
    InsertedChildrenGrow(node, node.(children := node.children[..at] + [child] + node.children[at..]), at, 0, 0);
  }

  lemma {:induction false} InsertedChildrenGrow(node: Node, big: Node, at: nat, i: nat, j: nat)
    requires at <= |node.children| && |big.children| == |node.children| + 1
    requires forall k :: 0 <= k < at ==> big.children[k] == node.children[k]
    requires forall k :: at <= k < |node.children| ==> big.children[k + 1] == node.children[k]
    requires i <= |node.children| && j == if i <= at then i else i + 1
    ensures ChildrenGrow(node, big, i, j)
    decreases |node.children| - i
  {
    if i < |node.children| {
      GrowsItself(node.children[i]);
      InsertedChildrenGrow(node, big, at, i + 1, if i + 1 <= at then i + 1 else i + 2);
      if i == at {
        assert big.children[i + 1] == node.children[i];
        assert ChildrenGrow(node, big, i, i + 1);
      }
    }
  }

  lemma {:induction false} GrowsItself(node: Node)
    ensures Grows(node, node)
    decreases node, 1
  {
    ChildrenGrowThemselves(node, 0);
  }

  lemma {:induction false} ChildrenGrowThemselves(node: Node, i: nat)
    requires i <= |node.children|
    ensures ChildrenGrow(node, node, i, i)
    decreases node, 0, |node.children| - i
  {
    if i < |node.children| {
      GrowsItself(node.children[i]);
      ChildrenGrowThemselves(node, i + 1);
    }
  }

  /** Growth in two steps is growth. */
  lemma {:induction false} GrowsTransitive(a: Node, b: Node, c: Node)
    requires Grows(a, b) && Grows(b, c)
    ensures Grows(a, c)
    decreases a, 1, |c.children|
  {
    ChildrenGrowTransitive(a, b, c, 0, 0, 0);
  }

  lemma {:induction false} ChildrenGrowTransitive(a: Node, b: Node, c: Node, i: nat, j: nat, k: nat)
    requires i <= |a.children| && j <= |b.children| && k <= |c.children|
    requires ChildrenGrow(a, b, i, j) && ChildrenGrow(b, c, j, k)
    ensures ChildrenGrow(a, c, i, k)
    decreases a, 0, |c.children| - k
  {
    if i < |a.children| {
      if !(Grows(b.children[j], c.children[k]) && ChildrenGrow(b, c, j + 1, k + 1)) {
        ChildrenGrowTransitive(a, b, c, i, j, k + 1);
      } else if Grows(a.children[i], b.children[j]) && ChildrenGrow(a, b, i + 1, j + 1) {
        GrowsTransitive(a.children[i], b.children[j], c.children[k]);
        ChildrenGrowTransitive(a, b, c, i + 1, j + 1, k + 1);
      } else {
        ChildrenGrowTransitive(a, b, c, i, j + 1, k + 1);
      }
    }
  }

  /** The tree with one more child at the node a path leads to. */
  function InsertAt(node: Node, path: seq<nat>, at: nat, child: Node): Node
    requires IsPath(node, path) && at <= |NodeAt(node, path).children|
    decreases |path|
  {
    if path == [] then node.(children := node.children[..at] + [child] + node.children[at..])
    else node.(children := node.children[path[0] := InsertAt(node.children[path[0]], path[1..], at, child)])
  }

  /** Inserting a child at any node of the tree is growth of the tree; by transitivity, so are many insertions. */
  lemma {:induction false} InsertingAnywhereGrows(node: Node, path: seq<nat>, at: nat, child: Node)
    requires IsPath(node, path) && at <= |NodeAt(node, path).children|
    ensures Grows(node, InsertAt(node, path, at, child))
    decreases |path|
  {
    if path == [] {
      AddingAChildGrows(node, at, child);
    } else {
      InsertingAnywhereGrows(node.children[path[0]], path[1..], at, child);
      ReplacedChildrenGrow(node, InsertAt(node, path, at, child), path[0], 0);
    }
  }

  lemma {:induction false} ReplacedChildrenGrow(node: Node, big: Node, at: nat, i: nat)
    requires at < |node.children| == |big.children| && i <= |node.children|
    requires forall k :: 0 <= k < |node.children| && k != at ==> big.children[k] == node.children[k]
    requires Grows(node.children[at], big.children[at])
    ensures ChildrenGrow(node, big, i, i)
    decreases |node.children| - i
  {
    if i < |node.children| {
      if i != at {
        GrowsItself(node.children[i]);
      }
      ReplacedChildrenGrow(node, big, at, i + 1);
    }
  }

  // ---------------------------------------------------------------- what a match means

  predicate TextIs(lex: Lexicon, expected: string, actual: Option<string>, exact: bool) {
    actual.Some? && lex.textMatches(actual.value, expected, exact)
  }

  /** The criteria on the node alone, field by field: every state is present unless it is expected to be absent. The
  text of a node is its name, its description and its value. */
  lemma OwnMeans(lex: Lexicon, q: Query, own: Own, expected: string, exact: bool)
    ensures OwnMatches(lex, q, own) <==>
              && (q.role.Some? ==> lex.normalizeRole(q.role.value) == own.role)
              && (q.name.Some? ==> TextIs(lex, q.name.value, own.name, q.exact))
              && (q.description.Some? ==> TextIs(lex, q.description.value, own.description, q.exact))
              && (q.value.Some? ==> TextIs(lex, q.value.value, own.value, q.exact))
              && (q.nativeId.Some? ==> q.nativeId == own.nativeId)
              && (forall p :: p in q.states ==> (p.token in own.states <==> p.expected != Some(false)))
    ensures OwnHasText(lex, expected, own, exact) <==>
              exists t :: t in [own.name, own.description, own.value] && TextIs(lex, expected, t, exact)
  {
    StatesMean(q.states, own.states);
    var texts := [own.name, own.description, own.value];
    assert texts[0] in texts && texts[1] in texts && texts[2] in texts;
  }

  /** A query matches exactly if the node does, its text is somewhere at or below it, `has` is matched by some strict
  descendant and `has_not` by none. */
  lemma MatchMeans(lex: Lexicon, q: Query, node: Node)
    ensures NodeMatches(lex, q, node) <==>
              && OwnMatches(lex, q, node.own)
              && (q.hasText.Some? ==> exists path :: TextAt(lex, q.hasText.value, node, q.exact, path))
              && (q.has.Some? ==> exists path :: path != [] && MatchesAt(lex, q.has.value, node, path))
              && (q.hasNot.Some? ==> forall path :: path != [] ==> !MatchesAt(lex, q.hasNot.value, node, path))
  {
    if q.hasText.Some? {
      HasTextIsSomewhere(lex, q.hasText.value, node, q.exact);
    }
    if q.has.Some? {
      SubtreeContainsIsDescendant(lex, q.has.value, node);
    }
    if q.hasNot.Some? {
      SubtreeContainsIsDescendant(lex, q.hasNot.value, node);
    }
  }

  lemma StatesMean(predicates: seq<StatePredicate>, states: set<Token>)
    ensures StatePredicatesMatch(predicates, states) <==>
              forall p :: p in predicates ==> (p.token in states <==> p.expected != Some(false))
  {
    if StatePredicatesMatch(predicates, states) {
      forall p | p in predicates
        ensures p.token in states <==> p.expected != Some(false)
      {
        var i :| 0 <= i < |predicates| && predicates[i] == p;
      }
    } else {
      var i :| 0 <= i < |predicates|
               && (if predicates[i].expected.Some? then predicates[i].expected.value else true)
                  != (predicates[i].token in states);
      assert predicates[i] in predicates;
    }
  }

  // ---------------------------------------------------------------- polarity

  /** No `has_not` anywhere. */
  predicate Positive(q: Query) {
    q.hasNot.None? && (q.has.None? || Positive(q.has.value))
  }

  /** One `has_not` of a positive query, and nothing else that looks below the node. */
  predicate Negative(q: Query) {
    q.hasText.None? && q.has.None? && (q.hasNot.None? || Positive(q.hasNot.value))
  }

  lemma {:induction false} TextGrows(lex: Lexicon, expected: string, small: Node, big: Node, exact: bool)
    requires Grows(small, big) && HasText(lex, expected, small, exact)
    ensures HasText(lex, expected, big, exact)
    decreases small
  {
    if !OwnHasText(lex, expected, small.own, exact) {
      var k :| 0 <= k < |small.children| && HasText(lex, expected, small.children[k], exact);
      var l := GrownChild(small, big, 0, 0, k);
      TextGrows(lex, expected, small.children[k], big.children[l], exact);
    }
  }

  /** A positive query keeps matching when descendants are added anywhere. */
  lemma {:induction false} PositiveIsMonotone(lex: Lexicon, q: Query, small: Node, big: Node)
    requires Positive(q) && Grows(small, big) && NodeMatches(lex, q, small)
    ensures NodeMatches(lex, q, big)
    decreases q, small, 1
  {
    if q.hasText.Some? {
      TextGrows(lex, q.hasText.value, small, big, q.exact);
    }
    if q.has.Some? {
      ContainmentIsMonotone(lex, q.has.value, small, big);
    }
  }

  lemma {:induction false} ContainmentIsMonotone(lex: Lexicon, q: Query, small: Node, big: Node)
    requires Positive(q) && Grows(small, big) && SubtreeContains(lex, q, small)
    ensures SubtreeContains(lex, q, big)
    decreases q, small, 0
  {
    var k :| 0 <= k < |small.children|
             && (NodeMatches(lex, q, small.children[k]) || SubtreeContains(lex, q, small.children[k]));
    var l := GrownChild(small, big, 0, 0, k);
    if NodeMatches(lex, q, small.children[k]) {
      PositiveIsMonotone(lex, q, small.children[k], big.children[l]);
    } else {
      ContainmentIsMonotone(lex, q, small.children[k], big.children[l]);
    }
  }

  /** Under one `has_not` the direction reverses: a match survives removing descendants. */
  lemma NegativeIsAntitone(lex: Lexicon, q: Query, small: Node, big: Node)
    requires Negative(q) && Grows(small, big) && NodeMatches(lex, q, big)
    ensures NodeMatches(lex, q, small)
  {
    if q.hasNot.Some? && SubtreeContains(lex, q.hasNot.value, small) {
      ContainmentIsMonotone(lex, q.hasNot.value, small, big);
    }
  }

  /** Mixing both, neither direction holds: what is gained through `has` can be lost through `has_not`. */
  lemma MixedIsNeither(lex: Lexicon, wanted: Query, unwanted: Query, node: Node, good: Node, bad: Node)
    requires node.children == [] && good.children == [] && bad.children == []
    requires NodeMatches(lex, wanted, good) && !NodeMatches(lex, unwanted, good) && NodeMatches(lex, unwanted, bad)
    ensures var q := EmptyQuery().(has := Some(wanted), hasNot := Some(unwanted));
            var one, two := node.(children := [good]), node.(children := [good, bad]);
            && Grows(node, one) && Grows(one, two)
            && !NodeMatches(lex, q, node) && NodeMatches(lex, q, one) && !NodeMatches(lex, q, two)
  {
    var q := EmptyQuery().(has := Some(wanted), hasNot := Some(unwanted));
    var one, two := node.(children := [good]), node.(children := [good, bad]);
    AddingAChildGrows(node, 0, good);
    assert node.children[..0] + [good] + node.children[0..] == [good];
    AddingAChildGrows(one, 1, bad);
    assert one.children[..1] + [bad] + one.children[1..] == [good, bad];
    assert one.children[0] == good && two.children[1] == bad;
    assert !SubtreeContains(lex, unwanted, good);
    assert SubtreeContains(lex, wanted, one) && !SubtreeContains(lex, unwanted, one);
    assert SubtreeContains(lex, unwanted, two);
  }

  function EmptyQuery(): Query {
    Query(None, None, None, None, None, None, false, [], None, None)
  }

  // ---------------------------------------------------------------- state tokens

  function TokensOf(q: Query): set<Token> {
    (set i | 0 <= i < |q.states| :: q.states[i].token)
    + (if q.has.Some? then TokensOf(q.has.value) else {})
    + (if q.hasNot.Some? then TokensOf(q.hasNot.value) else {})
  }

  /** Validation accepts a query exactly when every state token at any depth is in the vocabulary. */
  method ValidateStates(vocabulary: set<Token>, q: Query) returns (unknown: Option<Token>)
    ensures unknown.None? <==> TokensOf(q) <= vocabulary
    ensures unknown.Some? ==> unknown.value in TokensOf(q) && unknown.value !in vocabulary
    decreases q
  {
    for i := 0 to |q.states|
      invariant forall j :: 0 <= j < i ==> q.states[j].token in vocabulary
    {
      if q.states[i].token !in vocabulary {
        assert q.states[i].token in TokensOf(q);
        return Some(q.states[i].token);
      }
    }
    if q.has.Some? {
      unknown := ValidateStates(vocabulary, q.has.value);
      if unknown.Some? {
        return;
      }
    }
    unknown := None;
    if q.hasNot.Some? {
      unknown := ValidateStates(vocabulary, q.hasNot.value);
    }
  }
}
