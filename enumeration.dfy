/**
 * Enumerating every valid turn of a state: every sequence of at least two
 * legal actions, each legal in the state the previous ones lead to.
 *
 * The recursive enumerator is the reference: depth first, legal actions in
 * the order `ValidActions` lists them, a turn emitted as soon as its last
 * action is chosen and before the turns that extend it. The live enumerator
 * walks the same tree with three parallel stacks (states, their legal
 * actions, and the index of the next action to try in each frame).
 *
 * The live enumerator reads the last action of each emitted turn at
 * `index - 1` of the top frame before that frame's index has been advanced,
 * so it closes each turn with the previously tried action (and, for the
 * first action of a frame, with the frame's last one, Python's index -1).
 * `lag` selects that reading: `false` is the action actually taken, `true`
 * the action the live code reads.
 */
module Enumeration {
  import opened Cards
  import opened GameStates
  import opened Transitions

  /**
   * The actions apply one after another, each one listed among the legal
   * actions of the state the previous ones lead to.
   */
  predicate Legal(s: GameState, actions: seq<PlayerAction>)
    decreases |actions|
  {
    actions == []
    || (actions[0] in ValidActions(s) && TakeAction(s, actions[0]).Ok?
        && Legal(TakeAction(s, actions[0]).value, actions[1..]))
  }

  /**
   * A sequence of actions is legal exactly when applying it succeeds and
   * every pile index is written without Python's negative form.
   */
  lemma {:induction false} LegalExactly(s: GameState, actions: seq<PlayerAction>)
    ensures Legal(s, actions) <==>
      ApplyActions(s, actions).Ok? && forall k :: 0 <= k < |actions| ==> actions[k].pile >= 0
    decreases |actions|
  {
    if actions != [] {
      var a := actions[0];
      ValidActionsExactly(s, a);
      TakeActionFails(s, a);
      if TakeAction(s, a).Ok? {
        var next := TakeAction(s, a).value;
        LegalExactly(next, actions[1..]);
        assert forall k :: 1 <= k < |actions| ==> actions[k] == actions[1..][k - 1];
        if forall k :: 0 <= k < |actions[1..]| ==> actions[1..][k].pile >= 0 {
          forall k | 0 <= k < |actions| ensures a.pile >= 0 ==> actions[k].pile >= 0 {
            if k > 0 {
              assert actions[k] == actions[1..][k - 1];
            }
          }
        }
      }
    }
  }

  /** Python's `actions[index - 1]`: index 0 reads the last action. */
  function ReadBack(actions: seq<PlayerAction>, index: nat): (a: PlayerAction)
    requires index <= |actions| && |actions| > 0
    ensures a == if index == 0 then actions[|actions| - 1] else actions[index - 1]
  {
    actions[ResolveIndex(index as int - 1, |actions|).value]
  }

  /** The action closing a turn emitted at index `i` of a frame's legal actions. */
  function Closing(actions: seq<PlayerAction>, i: nat, lag: bool): (a: PlayerAction)
    requires i < |actions|
    ensures a in actions
  {
    if lag then ReadBack(actions, i) else actions[i]
  }

  /** The turn emitted on choosing action `i`: only once it holds two actions or more. */
  function Emitted(path: seq<PlayerAction>, actions: seq<PlayerAction>, i: nat, lag: bool): seq<PlayerTurn>
    requires i < |actions|
  {
    if |path| + 1 >= 2 then [PlayerTurn(path + [Closing(actions, i, lag)])] else []
  }

  /**
   * The turns that extend `path` from state `st`, trying the legal actions
   * of `st` from index `i` on (the source's loop over `all_valid_actions`).
   */
  function TurnsFromIndex(path: seq<PlayerAction>, st: GameState, i: nat, lag: bool): seq<PlayerTurn>
    decreases |st.hand|, 0, |ValidActions(st)| - i
  {
    var actions := ValidActions(st);
    if i >= |actions| then []
    else
      ValidActionSucceeds(st, actions[i]);
      var extended := path + [actions[i]];
      Emitted(path, actions, i, lag)
      + TurnsFrom(extended, TakeAction(st, actions[i]).value, lag)
      + TurnsFromIndex(path, st, i + 1, lag)
  }

  /** The turns that extend `path` from state `st` (the top of the state stack). */
  function TurnsFrom(path: seq<PlayerAction>, st: GameState, lag: bool): seq<PlayerTurn>
    decreases |st.hand|, 1, 0
  {
    TurnsFromIndex(path, st, 0, lag)
  }

  /** Every valid turn of `s`, as the recursive enumerator lists them. */
  function ValidTurns(s: GameState): seq<PlayerTurn> {
    TurnsFrom([], s, false)
  }

  lemma {:induction false} SplitAfter(path: seq<PlayerAction>, a: PlayerAction, rest: seq<PlayerAction>)
    ensures (path + [a] + rest)[..|path|] == path
    ensures (path + [a] + rest)[|path|..] == [a] + rest
  {
    assert path + [a] + rest == path + ([a] + rest);
  }

  /** One step of the loop over the legal actions of `st`. */
  lemma {:induction false} TurnsFromIndexStep(path: seq<PlayerAction>, st: GameState, i: nat, lag: bool)
    requires i < |ValidActions(st)|
    ensures var a := ValidActions(st)[i];
      && TakeAction(st, a).Ok?
      && |TakeAction(st, a).value.hand| < |st.hand|
      && TurnsFromIndex(path, st, i, lag) ==
        Emitted(path, ValidActions(st), i, lag)
        + TurnsFrom(path + [a], TakeAction(st, a).value, lag)
        + TurnsFromIndex(path, st, i + 1, lag)
  {
    ValidActionSucceeds(st, ValidActions(st)[i]);
  }

  /** The same step, seen through membership. */
  lemma {:induction false} MemberStep(path: seq<PlayerAction>, st: GameState, i: nat, lag: bool, t: PlayerTurn)
    requires i < |ValidActions(st)|
    ensures var a := ValidActions(st)[i];
      && TakeAction(st, a).Ok?
      && |TakeAction(st, a).value.hand| < |st.hand|
      && (t in TurnsFromIndex(path, st, i, lag) <==>
        || t in Emitted(path, ValidActions(st), i, lag)
        || t in TurnsFrom(path + [a], TakeAction(st, a).value, lag)
        || t in TurnsFromIndex(path, st, i + 1, lag))
  {
    TurnsFromIndexStep(path, st, i, lag);
  }

  /** The first action of a legal sequence is legal, and the rest is legal after it. */
  lemma {:induction false} LegalHead(st: GameState, u: seq<PlayerAction>)
    requires Legal(st, u) && |u| >= 1
    ensures u[0] in ValidActions(st) && TakeAction(st, u[0]).Ok?
    ensures Legal(TakeAction(st, u[0]).value, u[1..])
  {
  }

  /** `t` extends `path` by a legal sequence from `st`, to two actions or more. */
  predicate ExtendsLegally(path: seq<PlayerAction>, st: GameState, t: PlayerTurn) {
    |t.actions| >= 2 && |t.actions| > |path|
    && t.actions[..|path|] == path && Legal(st, t.actions[|path|..])
  }

  lemma {:induction false} EmittedExtendsLegally(path: seq<PlayerAction>, st: GameState, i: nat, lag: bool, t: PlayerTurn)
    requires i < |ValidActions(st)|
    requires t in Emitted(path, ValidActions(st), i, lag)
    ensures ExtendsLegally(path, st, t)
  {
    var c := Closing(ValidActions(st), i, lag);
    assert t.actions == path + [c];
    ValidActionSucceeds(st, c);
    assert t.actions[..|path|] == path;
    assert t.actions[|path|..] == [c];
    assert Legal(st, [c]) by {
      assert [c][1..] == [];
    }
  }

  /** A legal first action in front of a legal extension is a legal extension. */
  lemma {:induction false} ExtendsLegallyCons(path: seq<PlayerAction>, st: GameState, a: PlayerAction, t: PlayerTurn)
    requires a in ValidActions(st)
    requires TakeAction(st, a).Ok? && ExtendsLegally(path + [a], TakeAction(st, a).value, t)
    ensures ExtendsLegally(path, st, t)
  {
    var extended := path + [a];
    var rest := t.actions[|extended|..];
    assert t.actions == extended + rest by {
      assert t.actions == t.actions[..|extended|] + rest;
    }
    SplitAfter(path, a, rest);
    var u := t.actions[|path|..];
    assert u[0] == a && u[1..] == rest by {
      assert u == [a] + rest;
    }
  }

  lemma {:induction false} TurnsFromIndexSound(path: seq<PlayerAction>, st: GameState, i: nat, lag: bool, t: PlayerTurn)
    requires t in TurnsFromIndex(path, st, i, lag)
    ensures ExtendsLegally(path, st, t)
    decreases |st.hand|, 0, |ValidActions(st)| - i
  {
    var actions := ValidActions(st);
    assert i < |actions|;
    MemberStep(path, st, i, lag, t);
    var a := actions[i];
    var next := TakeAction(st, a).value;
    if t in Emitted(path, actions, i, lag) {
      EmittedExtendsLegally(path, st, i, lag, t);
    } else if t in TurnsFrom(path + [a], next, lag) {
      TurnsFromSound(path + [a], next, lag, t);
      ExtendsLegallyCons(path, st, a, t);
    } else {
      TurnsFromIndexSound(path, st, i + 1, lag, t);
    }
  }

  lemma {:induction false} TurnsFromSound(path: seq<PlayerAction>, st: GameState, lag: bool, t: PlayerTurn)
    requires t in TurnsFrom(path, st, lag)
    ensures ExtendsLegally(path, st, t)
    decreases |st.hand|, 1, 0
  {
    TurnsFromIndexSound(path, st, 0, lag, t);
  }

  lemma {:induction false} TurnsFromIndexComplete(path: seq<PlayerAction>, st: GameState, i: nat, k: nat, u: seq<PlayerAction>)
    requires Legal(st, u) && |u| >= 1 && |path| + |u| >= 2
    requires i <= k < |ValidActions(st)| && ValidActions(st)[k] == u[0]
    ensures PlayerTurn(path + u) in TurnsFromIndex(path, st, i, false)
    decreases |st.hand|, 0, k - i
  {
    var actions := ValidActions(st);
    var t := PlayerTurn(path + u);
    MemberStep(path, st, i, false, t);
    var a := actions[i];
    if k == i {
      LegalHead(st, u);
      if |u| == 1 {
        assert path + u == path + [a];
        assert t in Emitted(path, actions, i, false);
      } else {
        var next := TakeAction(st, a).value;
        TurnsFromComplete(path + [a], next, u[1..]);
        ConsSplit(path, u);
      }
    } else {
      TurnsFromIndexComplete(path, st, i + 1, k, u);
    }
  }

  lemma {:induction false} ConsSplit(path: seq<PlayerAction>, u: seq<PlayerAction>)
    requires |u| >= 1
    ensures path + [u[0]] + u[1..] == path + u
  {
    assert u == [u[0]] + u[1..];
  }

  lemma {:induction false} TurnsFromComplete(path: seq<PlayerAction>, st: GameState, u: seq<PlayerAction>)
    requires Legal(st, u) && |u| >= 1 && |path| + |u| >= 2
    ensures PlayerTurn(path + u) in TurnsFrom(path, st, false)
    decreases |st.hand|, 1, 0
  {
    LegalHead(st, u);
    var k :| 0 <= k < |ValidActions(st)| && ValidActions(st)[k] == u[0];
    TurnsFromIndexComplete(path, st, 0, k, u);
  }

  /**
   * The recursive enumerator lists exactly the legal sequences of at least
   * two actions.
   */
  lemma {:induction false} ValidTurnsExactly(s: GameState, t: PlayerTurn)
    ensures t in ValidTurns(s) <==> |t.actions| >= 2 && Legal(s, t.actions)
  {
    assert t.actions[0..] == t.actions;
    if t in ValidTurns(s) {
      TurnsFromSound([], s, false, t);
    }
    if |t.actions| >= 2 && Legal(s, t.actions) {
      TurnsFromComplete([], s, t.actions);
      assert [] + t.actions == t.actions;
    }
  }

  /** `take_turn` never fails on an enumerated turn, with either reading of the closing action. */
  lemma {:induction false} EnumeratedTurnsSucceed(s: GameState, lag: bool, t: PlayerTurn)
    requires t in TurnsFrom([], s, lag)
    ensures |t.actions| >= 2 && TakeTurnSpec(s, t).Ok?
  {
    TurnsFromSound([], s, lag, t);
    assert t.actions[0..] == t.actions;
    LegalExactly(s, t.actions);
  }

  /** A legal action followed by an action legal after it is a legal sequence. */
  lemma {:induction false} LegalPair(s: GameState, a: PlayerAction, b: PlayerAction)
    requires a in ValidActions(s) && TakeAction(s, a).Ok?
    requires b in ValidActions(TakeAction(s, a).value)
    ensures Legal(s, [a, b])
  {
    var next := TakeAction(s, a).value;
    ValidActionSucceeds(next, b);
    assert Legal(next, [b]) by {
      assert [b][1..] == [];
    }
    assert [a, b][1..] == [b];
  }

  /** There is a valid turn exactly when the enumeration is not empty. */
  lemma {:induction false} HasOneValidTurnIffTurns(s: GameState)
    ensures HasOneValidTurn(s) <==> |ValidTurns(s)| > 0
  {
    if HasOneValidTurn(s) {
      var a :| a in ValidActions(s) && Continues(s, a);
      var b := ValidActions(TakeAction(s, a).value)[0];
      LegalPair(s, a, b);
      ValidTurnsExactly(s, PlayerTurn([a, b]));
    }
    if |ValidTurns(s)| > 0 {
      var t := ValidTurns(s)[0];
      ValidTurnsExactly(s, t);
      LegalHead(s, t.actions);
      LegalHead(TakeAction(s, t.actions[0]).value, t.actions[1..]);
      assert Continues(s, t.actions[0]);
    }
  }

  /**
   * The source's recursive enumerator: `actionStack` is the path so far and
   * the top of `stateStack` the state it leads to. Each legal action of that
   * state extends the path; the extended path is a turn once it holds two
   * actions, and the turns that extend it further follow it.
   */
  method EnumerateValidTurnsRecursive(actionStack: seq<PlayerAction>, stateStack: seq<GameState>)
      returns (result: seq<PlayerTurn>)
    requires |stateStack| >= 1
    ensures result == TurnsFrom(actionStack, stateStack[|stateStack| - 1], false)
    decreases |stateStack[|stateStack| - 1].hand|
  {
    var state := stateStack[|stateStack| - 1];
    result := [];
    var actions := AllValidActions(state);
    for i := 0 to |actions|
      invariant result + TurnsFromIndex(actionStack, state, i, false) == TurnsFrom(actionStack, state, false)
    {
      TurnsFromIndexStep(actionStack, state, i, false);
      var newAction := actions[i];
      var newActionStack := actionStack + [newAction];
      var newState := TakeAction(state, newAction).value;
      var newStateStack := stateStack + [newState];
      ghost var before := result;
      if |newActionStack| >= 2 {
        result := result + [PlayerTurn(newActionStack)];
      }
      ghost var emitted := Emitted(actionStack, actions, i, false);
      assert result == before + emitted;
      var deeper := EnumerateValidTurnsRecursive(newActionStack, newStateStack);
      Regroup(before, emitted, deeper, TurnsFromIndex(actionStack, state, i + 1, false));
      result := result + deeper;
    }
  }

  lemma {:induction false} Regroup(before: seq<PlayerTurn>, emitted: seq<PlayerTurn>, deeper: seq<PlayerTurn>, rest: seq<PlayerTurn>)
    ensures before + (emitted + deeper + rest) == (before + emitted + deeper) + rest
  {
  }

  /** Each of the first `n` frames has moved its index past the action it chose. */
  predicate Chosen(actionStack: seq<seq<PlayerAction>>, indexStack: seq<nat>, n: nat)
    requires n <= |actionStack| && n <= |indexStack|
  {
    forall k :: 0 <= k < n ==> 1 <= indexStack[k] <= |actionStack[k]|
  }

  /**
   * The actions chosen by the first `n` frames of the stacks: a frame whose
   * index has moved past its chosen action holds it at `index - 1`.
   */
  function PathOf(actionStack: seq<seq<PlayerAction>>, indexStack: seq<nat>, n: nat): (path: seq<PlayerAction>)
    requires n <= |actionStack| && n <= |indexStack|
    requires Chosen(actionStack, indexStack, n)
    ensures |path| == n
    ensures forall k :: 0 <= k < n ==> path[k] == actionStack[k][indexStack[k] - 1]
  {
    seq(n, k requires 0 <= k < n => actionStack[k][indexStack[k] - 1])
  }

  /**
   * The loop iterations a frame still needs from index `i`: one per legal
   * action tried, plus the subtree that action opens, plus one to pop.
   */
  function Steps(st: GameState, i: nat): nat
    decreases |st.hand|, |ValidActions(st)| - i
  {
    var actions := ValidActions(st);
    if i >= |actions| then 1
    else
      ValidActionSucceeds(st, actions[i]);
      1 + Steps(TakeAction(st, actions[i]).value, 0) + Steps(st, i + 1)
  }

  lemma {:induction false} StepsStep(st: GameState, i: nat, next: GameState)
    requires i < |ValidActions(st)|
    requires TakeAction(st, ValidActions(st)[i]) == Ok(next)
    ensures Steps(st, i) == 1 + Steps(next, 0) + Steps(st, i + 1)
  {
  }

  lemma {:induction false} PathOfAgree(a1: seq<seq<PlayerAction>>, i1: seq<nat>, a2: seq<seq<PlayerAction>>, i2: seq<nat>, n: nat)
    requires n <= |a1| && n <= |i1| && n <= |a2| && n <= |i2|
    requires forall k :: 0 <= k < n ==> a1[k] == a2[k] && i1[k] == i2[k]
    requires forall k :: 0 <= k < n ==> 1 <= i1[k] <= |a1[k]|
    ensures PathOf(a1, i1, n) == PathOf(a2, i2, n)
  {
  }

  /** The path after a push: the old path, then the action just tried. */
  lemma {:induction false} PathAfterPush(actionStack: seq<seq<PlayerAction>>, indexStack: seq<nat>,
                      actions': seq<seq<PlayerAction>>, index': seq<nat>, top: nat)
    requires |actionStack| == |indexStack| == top + 1
    requires |actions'| == |index'| == top + 2
    requires forall k :: 0 <= k < top ==> 1 <= indexStack[k] <= |actionStack[k]|
    requires indexStack[top] < |actionStack[top]|
    requires forall k :: 0 <= k <= top ==> actions'[k] == actionStack[k]
    requires forall k :: 0 <= k < top ==> index'[k] == indexStack[k]
    requires index'[top] == indexStack[top] + 1
    ensures PathOf(actions', index', top) == PathOf(actionStack, indexStack, top)
    ensures PathOf(actions', index', top + 1) ==
      PathOf(actionStack, indexStack, top) + [actionStack[top][indexStack[top]]]
  {
  }

  /** The turns a stack of frames still owes: the top frame's first, then those below. */
  function Owed(owed: seq<seq<PlayerTurn>>): seq<PlayerTurn>
    decreases |owed|
  {
    if owed == [] then [] else owed[|owed| - 1] + Owed(owed[..|owed| - 1])
  }

  /** The loop iterations a stack of frames still needs. */
  function Sum(costs: seq<nat>): nat
    decreases |costs|
  {
    if costs == [] then 0 else costs[|costs| - 1] + Sum(costs[..|costs| - 1])
  }

  /** Splitting the top frame's debt into what it emits now, its child's and its own remainder. */
  lemma {:induction false} PushOwed(owed: seq<seq<PlayerTurn>>, top: nat,
                 emitted: seq<PlayerTurn>, below: seq<PlayerTurn>, siblings: seq<PlayerTurn>)
    requires |owed| == top + 1
    requires owed[top] == emitted + below + siblings
    ensures Owed(owed) == emitted + Owed(owed[..top] + [siblings, below])
  {
    var owed' := owed[..top] + [siblings, below];
    assert owed'[..top + 1] == owed[..top] + [siblings];
    assert owed'[..top + 1][..top] == owed[..top];
    assert owed[..top] == owed[..|owed| - 1];
  }

  lemma {:induction false} PushSum(costs: seq<nat>, top: nat, child: nat, rest: nat)
    requires |costs| == top + 1
    requires costs[top] == 1 + child + rest
    ensures Sum(costs[..top] + [rest, child]) < Sum(costs)
  {
    var costs' := costs[..top] + [rest, child];
    assert costs'[..top + 1] == costs[..top] + [rest];
    assert costs'[..top + 1][..top] == costs[..top];
    assert costs[..top] == costs[..|costs| - 1];
  }

  /** What a frame owes: the rest of its loop, as the recursive enumerator would produce it. */
  function Debt(lag: bool): (seq<PlayerAction>, GameState, nat) -> seq<PlayerTurn> {
    (path: seq<PlayerAction>, st: GameState, i: nat) => TurnsFromIndex(path, st, i, lag)
  }

  /** What each frame lists: the legal actions of its state. */
  function Listing(): GameState -> seq<PlayerAction> {
    (st: GameState) => ValidActions(st)
  }

  /** The loop iterations a frame still needs. */
  function Cost(): (GameState, nat) -> nat {
    (st: GameState, i: nat) => Steps(st, i)
  }

  /**
   * Frames `0 .. n-1` of the stacks are well formed: each lists its state's
   * legal actions, the frames below it have each chosen one, and `owed[k]`
   * and `costs[k]` are what frame `k` still owes, by `debt` and `cost`, given
   * the path chosen below it.
   */
  ghost predicate Stacked(actionStack: seq<seq<PlayerAction>>, indexStack: seq<nat>, stateStack: seq<GameState>,
                          owed: seq<seq<PlayerTurn>>, costs: seq<nat>,
                          legal: GameState -> seq<PlayerAction>,
                          debt: (seq<PlayerAction>, GameState, nat) -> seq<PlayerTurn>, cost: (GameState, nat) -> nat,
                          n: nat)
    requires n <= |actionStack| && n <= |indexStack| && n <= |stateStack| && n <= |owed| && n <= |costs|
    decreases n
  {
    n == 0 ||
    (&& Stacked(actionStack, indexStack, stateStack, owed, costs, legal, debt, cost, n - 1)
     && actionStack[n - 1] == legal(stateStack[n - 1])
     && Chosen(actionStack, indexStack, n - 1)
     && owed[n - 1] == debt(PathOf(actionStack, indexStack, n - 1), stateStack[n - 1], indexStack[n - 1])
     && costs[n - 1] == cost(stateStack[n - 1], indexStack[n - 1]))
  }

  /**
   * The stacks are a well-formed depth-first frontier, and `owed` and
   * `costs` hold each frame's remaining turns and loop iterations.
   */
  ghost predicate Frames(actionStack: seq<seq<PlayerAction>>, indexStack: seq<nat>, stateStack: seq<GameState>,
                         owed: seq<seq<PlayerTurn>>, costs: seq<nat>, lag: bool)
  {
    && |actionStack| == |indexStack| == |stateStack| == |owed| == |costs|
    && Stacked(actionStack, indexStack, stateStack, owed, costs, Listing(), Debt(lag), Cost(), |stateStack|)
  }

  /** Only the first `n` frames matter to whether they are well formed. */
  lemma {:induction false} StackedAgree(a1: seq<seq<PlayerAction>>, i1: seq<nat>, s1: seq<GameState>,
                                        o1: seq<seq<PlayerTurn>>, c1: seq<nat>,
                                        a2: seq<seq<PlayerAction>>, i2: seq<nat>, s2: seq<GameState>,
                                        o2: seq<seq<PlayerTurn>>, c2: seq<nat>,
                                        legal: GameState -> seq<PlayerAction>,
                                        debt: (seq<PlayerAction>, GameState, nat) -> seq<PlayerTurn>,
                                        cost: (GameState, nat) -> nat, n: nat)
    requires n <= |a1| && n <= |i1| && n <= |s1| && n <= |o1| && n <= |c1|
    requires n <= |a2| && n <= |i2| && n <= |s2| && n <= |o2| && n <= |c2|
    requires forall k :: 0 <= k < n ==>
      a1[k] == a2[k] && i1[k] == i2[k] && s1[k] == s2[k] && o1[k] == o2[k] && c1[k] == c2[k]
    requires Stacked(a1, i1, s1, o1, c1, legal, debt, cost, n)
    ensures Stacked(a2, i2, s2, o2, c2, legal, debt, cost, n)
    decreases n
  {
    if n > 0 {
      StackedAgree(a1, i1, s1, o1, c1, a2, i2, s2, o2, c2, legal, debt, cost, n - 1);
      PathOfAgree(a1, i1, a2, i2, n - 1);
    }
  }

  /** The turns emitted by a step move from what is owed to what is done. */
  lemma {:induction false} EmitOwed(turns: seq<PlayerTurn>, emitted: seq<PlayerTurn>, rest: seq<PlayerTurn>, total: seq<PlayerTurn>)
    requires turns + (emitted + rest) == total
    ensures (turns + emitted) + rest == total
  {
  }

  /** While the top frame has an action left to try, every frame can be read at `index - 1`. */
  lemma {:induction false} FramesReadable(actionStack: seq<seq<PlayerAction>>, indexStack: seq<nat>, stateStack: seq<GameState>,
                       owed: seq<seq<PlayerTurn>>, costs: seq<nat>, lag: bool)
    requires Frames(actionStack, indexStack, stateStack, owed, costs, lag) && |stateStack| >= 1
    requires indexStack[|stateStack| - 1] < |actionStack[|stateStack| - 1]|
    ensures forall k :: 0 <= k < |actionStack| ==> indexStack[k] <= |actionStack[k]| && |actionStack[k]| > 0
    ensures Chosen(actionStack, indexStack, |stateStack| - 1)
  {
  }

  /** The stacks the source starts from: one frame, for the given state, at index 0. */
  lemma {:induction false} StartFrames(state: GameState, lag: bool)
    ensures Frames([ValidActions(state)], [0], [state], [TurnsFrom([], state, lag)], [Steps(state, 0)], lag)
    ensures Owed([TurnsFrom([], state, lag)]) == TurnsFrom([], state, lag)
  {
    var owed := [TurnsFrom([], state, lag)];
    assert PathOf([ValidActions(state)], [0], 0) == [];
    assert owed[..0] == [];
  }

  /** The top frame, unfolded: its legal actions, and what it still owes. */
  lemma {:induction false} TopFrame(actionStack: seq<seq<PlayerAction>>, indexStack: seq<nat>, stateStack: seq<GameState>,
                 owed: seq<seq<PlayerTurn>>, costs: seq<nat>, lag: bool)
    requires Frames(actionStack, indexStack, stateStack, owed, costs, lag) && |stateStack| >= 1
    ensures var top := |stateStack| - 1;
      && Stacked(actionStack, indexStack, stateStack, owed, costs, Listing(), Debt(lag), Cost(), top)
      && actionStack[top] == ValidActions(stateStack[top])
      && Chosen(actionStack, indexStack, top)
      && owed[top] == TurnsFromIndex(PathOf(actionStack, indexStack, top), stateStack[top], indexStack[top], lag)
      && costs[top] == Steps(stateStack[top], indexStack[top])
  {
  }

  /**
   * The stacks after trying the top frame's next action: its index moves
   * past that action and a frame for the state `next` it leads to is pushed,
   * each with what it still owes and costs.
   */
  ghost predicate Pushed(actionStack: seq<seq<PlayerAction>>, indexStack: seq<nat>, stateStack: seq<GameState>,
                         owed: seq<seq<PlayerTurn>>, costs: seq<nat>,
                         legal: GameState -> seq<PlayerAction>,
                         debt: (seq<PlayerAction>, GameState, nat) -> seq<PlayerTurn>,
                         cost: (GameState, nat) -> nat, next: GameState,
                         actions': seq<seq<PlayerAction>>, index': seq<nat>, states': seq<GameState>,
                         owed': seq<seq<PlayerTurn>>, costs': seq<nat>)
  {
    && |actionStack| == |indexStack| == |stateStack| == |owed| == |costs| >= 1
    && Stacked(actionStack, indexStack, stateStack, owed, costs, legal, debt, cost, |stateStack|)
    && indexStack[|stateStack| - 1] < |actionStack[|stateStack| - 1]|
    && actions' == actionStack + [legal(next)]
    && index' == indexStack[|stateStack| - 1 := indexStack[|stateStack| - 1] + 1] + [0]
    && states' == stateStack + [next]
    && var top := |stateStack| - 1;
      var path := PathOf(actionStack, indexStack, top);
      var i := indexStack[top];
      && owed' == owed[..top] + [debt(path, stateStack[top], i + 1), debt(path + [actionStack[top][i]], next, 0)]
      && costs' == costs[..top] + [cost(stateStack[top], i + 1), cost(next, 0)]
  }

  /** A push keeps the stacks well formed. */
  lemma {:induction false} PushStacked(actionStack: seq<seq<PlayerAction>>, indexStack: seq<nat>, stateStack: seq<GameState>,
                                       owed: seq<seq<PlayerTurn>>, costs: seq<nat>,
                                       legal: GameState -> seq<PlayerAction>,
                                       debt: (seq<PlayerAction>, GameState, nat) -> seq<PlayerTurn>,
                                       cost: (GameState, nat) -> nat, next: GameState,
                                       actions': seq<seq<PlayerAction>>, index': seq<nat>, states': seq<GameState>,
                                       owed': seq<seq<PlayerTurn>>, costs': seq<nat>)
    requires Pushed(actionStack, indexStack, stateStack, owed, costs, legal, debt, cost, next, actions', index', states', owed', costs')
    ensures Stacked(actions', index', states', owed', costs', legal, debt, cost, |states'|)
  {
    PushKeep(actionStack, indexStack, stateStack, owed, costs, legal, debt, cost, next, actions', index', states', owed', costs');
    PushPath(actionStack, indexStack, stateStack, owed, costs, legal, debt, cost, next, actions', index', states', owed', costs');
  }

  /** The frames kept by a push, with the top one moved on to its next action. */
  lemma {:induction false} PushKeep(actionStack: seq<seq<PlayerAction>>, indexStack: seq<nat>, stateStack: seq<GameState>,
                                       owed: seq<seq<PlayerTurn>>, costs: seq<nat>,
                                       legal: GameState -> seq<PlayerAction>,
                                       debt: (seq<PlayerAction>, GameState, nat) -> seq<PlayerTurn>,
                                       cost: (GameState, nat) -> nat, next: GameState,
                                       actions': seq<seq<PlayerAction>>, index': seq<nat>, states': seq<GameState>,
                                       owed': seq<seq<PlayerTurn>>, costs': seq<nat>)
    requires Pushed(actionStack, indexStack, stateStack, owed, costs, legal, debt, cost, next, actions', index', states', owed', costs')
    ensures Stacked(actions', index', states', owed', costs', legal, debt, cost, |stateStack|)
  {
    var top := |stateStack| - 1;
    PushBelow(actionStack, indexStack, stateStack, owed, costs, legal, debt, cost, next, actions', index', states', owed', costs');
    PushPath(actionStack, indexStack, stateStack, owed, costs, legal, debt, cost, next, actions', index', states', owed', costs');
    PathAfterPush(actionStack, indexStack, actions', index', top);
  }

  /** After a push the frames below the new one have each chosen an action, the top one the action just tried. */
  lemma {:induction false} PushPath(actionStack: seq<seq<PlayerAction>>, indexStack: seq<nat>, stateStack: seq<GameState>,
                                       owed: seq<seq<PlayerTurn>>, costs: seq<nat>,
                                       legal: GameState -> seq<PlayerAction>,
                                       debt: (seq<PlayerAction>, GameState, nat) -> seq<PlayerTurn>,
                                       cost: (GameState, nat) -> nat, next: GameState,
                                       actions': seq<seq<PlayerAction>>, index': seq<nat>, states': seq<GameState>,
                                       owed': seq<seq<PlayerTurn>>, costs': seq<nat>)
    requires Pushed(actionStack, indexStack, stateStack, owed, costs, legal, debt, cost, next, actions', index', states', owed', costs')
    ensures Chosen(actions', index', |stateStack|)
    ensures PathOf(actions', index', |stateStack|) ==
      PathOf(actionStack, indexStack, |stateStack| - 1) + [actionStack[|stateStack| - 1][indexStack[|stateStack| - 1]]]
  {
    var top := |stateStack| - 1;
    PathAfterPush(actionStack, indexStack, actions', index', top);
    assert Chosen(actions', index', top + 1);
  }

  /** The frames below the top one are untouched by a push. */
  lemma {:induction false} PushBelow(actionStack: seq<seq<PlayerAction>>, indexStack: seq<nat>, stateStack: seq<GameState>,
                                       owed: seq<seq<PlayerTurn>>, costs: seq<nat>,
                                       legal: GameState -> seq<PlayerAction>,
                                       debt: (seq<PlayerAction>, GameState, nat) -> seq<PlayerTurn>,
                                       cost: (GameState, nat) -> nat, next: GameState,
                                       actions': seq<seq<PlayerAction>>, index': seq<nat>, states': seq<GameState>,
                                       owed': seq<seq<PlayerTurn>>, costs': seq<nat>)
    requires Pushed(actionStack, indexStack, stateStack, owed, costs, legal, debt, cost, next, actions', index', states', owed', costs')
    ensures Stacked(actions', index', states', owed', costs', legal, debt, cost, |stateStack| - 1)
  {
    var top := |stateStack| - 1;
    StackedAgree(actionStack, indexStack, stateStack, owed, costs, actions', index', states', owed', costs', legal, debt, cost, top);
  }

  /** The frames below an exhausted top frame are well formed on their own. */
  lemma {:induction false} PopStacked(actionStack: seq<seq<PlayerAction>>, indexStack: seq<nat>, stateStack: seq<GameState>,
                   owed: seq<seq<PlayerTurn>>, costs: seq<nat>,
                   legal: GameState -> seq<PlayerAction>,
                   debt: (seq<PlayerAction>, GameState, nat) -> seq<PlayerTurn>, cost: (GameState, nat) -> nat)
    requires |actionStack| == |indexStack| == |stateStack| == |owed| == |costs| >= 1
    requires Stacked(actionStack, indexStack, stateStack, owed, costs, legal, debt, cost, |stateStack|)
    ensures var top := |stateStack| - 1;
      Stacked(actionStack[..top], indexStack[..top], stateStack[..top], owed[..top], costs[..top], legal, debt, cost, top)
  {
    var top := |stateStack| - 1;
    StackedAgree(actionStack, indexStack, stateStack, owed, costs,
                 actionStack[..top], indexStack[..top], stateStack[..top], owed[..top], costs[..top], legal, debt, cost, top);
  }

  /**
   * Trying the top frame's next action and pushing the frame it opens: the
   * turn emitted now and the new frames' debts make up the old debt, and
   * fewer iterations remain.
   */
  lemma {:induction false} PushFrame(actionStack: seq<seq<PlayerAction>>, indexStack: seq<nat>, stateStack: seq<GameState>,
                  owed: seq<seq<PlayerTurn>>, costs: seq<nat>, lag: bool, next: GameState,
                  actions': seq<seq<PlayerAction>>, index': seq<nat>, states': seq<GameState>)
      returns (owed': seq<seq<PlayerTurn>>, costs': seq<nat>)
    requires Frames(actionStack, indexStack, stateStack, owed, costs, lag) && |stateStack| >= 1
    requires indexStack[|stateStack| - 1] < |actionStack[|stateStack| - 1]|
    requires TakeAction(stateStack[|stateStack| - 1], actionStack[|stateStack| - 1][indexStack[|stateStack| - 1]]) == Ok(next)
    requires actions' == actionStack + [ValidActions(next)]
    requires index' == indexStack[|stateStack| - 1 := indexStack[|stateStack| - 1] + 1] + [0]
    requires states' == stateStack + [next]
    ensures Frames(actions', index', states', owed', costs', lag)
    ensures var top := |stateStack| - 1;
      Owed(owed) == Emitted(PathOf(actionStack, indexStack, top), actionStack[top], indexStack[top], lag) + Owed(owed')
    ensures Sum(costs') < Sum(costs)
  {
    var top := |stateStack| - 1;
    var i := indexStack[top];
    var st := stateStack[top];
    TopFrame(actionStack, indexStack, stateStack, owed, costs, lag);
    var path := PathOf(actionStack, indexStack, top);
    var siblings := TurnsFromIndex(path, st, i + 1, lag);
    var below := TurnsFrom(path + [actionStack[top][i]], next, lag);
    owed' := owed[..top] + [siblings, below];
    costs' := costs[..top] + [Steps(st, i + 1), Steps(next, 0)];
    PushStacked(actionStack, indexStack, stateStack, owed, costs, Listing(), Debt(lag), Cost(), next,
                actions', index', states', owed', costs');
    TurnsFromIndexStep(path, st, i, lag);
    StepsStep(st, i, next);
    PushOwed(owed, top, Emitted(path, actionStack[top], i, lag), below, siblings);
    PushSum(costs, top, Steps(next, 0), Steps(st, i + 1));
  }

  /** Popping an exhausted top frame: it owed nothing, and fewer iterations remain. */
  lemma {:induction false} PopFrame(actionStack: seq<seq<PlayerAction>>, indexStack: seq<nat>, stateStack: seq<GameState>,
                 owed: seq<seq<PlayerTurn>>, costs: seq<nat>, lag: bool)
    requires Frames(actionStack, indexStack, stateStack, owed, costs, lag) && |stateStack| >= 1
    requires indexStack[|stateStack| - 1] >= |actionStack[|stateStack| - 1]|
    ensures var top := |stateStack| - 1;
      && Frames(actionStack[..top], indexStack[..top], stateStack[..top], owed[..top], costs[..top], lag)
      && Owed(owed[..top]) == Owed(owed)
      && Sum(costs[..top]) < Sum(costs)
  {
    var top := |stateStack| - 1;
    TopFrame(actionStack, indexStack, stateStack, owed, costs, lag);
    PopStacked(actionStack, indexStack, stateStack, owed, costs, Listing(), Debt(lag), Cost());
    assert owed[..top] == owed[..|owed| - 1];
    assert costs[..top] == costs[..|costs| - 1];
  }

  /**
   * The source's inner loop: each frame's action at `index - 1`, read with
   * Python's list indexing (so index 0 reads the frame's last action).
   */
  method CurrentTurn(actionStack: seq<seq<PlayerAction>>, indexStack: seq<nat>) returns (actions: seq<PlayerAction>)
    requires |actionStack| == |indexStack|
    requires forall k :: 0 <= k < |actionStack| ==> indexStack[k] <= |actionStack[k]| && |actionStack[k]| > 0
    ensures |actions| == |actionStack|
    ensures forall k :: 0 <= k < |actions| ==> actions[k] == ReadBack(actionStack[k], indexStack[k])
  {
    actions := [];
    for k := 0 to |actionStack|
      invariant |actions| == k
      invariant forall j :: 0 <= j < k ==> actions[j] == ReadBack(actionStack[j], indexStack[j])
    {
      var j := ResolveIndex(indexStack[k] as int - 1, |actionStack[k]|).value;
      actions := actions + [actionStack[k][j]];
    }
  }

  /** The turn `CurrentTurn` reads: the path of the lower frames, closed by the top frame's read. */
  lemma {:induction false} CurrentTurnIsPath(actionStack: seq<seq<PlayerAction>>, indexStack: seq<nat>, actions: seq<PlayerAction>)
    requires |actionStack| == |indexStack| == |actions| >= 1
    requires forall k :: 0 <= k < |actionStack| - 1 ==> 1 <= indexStack[k] <= |actionStack[k]|
    requires indexStack[|actions| - 1] <= |actionStack[|actions| - 1]| && |actionStack[|actions| - 1]| > 0
    requires forall k :: 0 <= k < |actions| ==> actions[k] == ReadBack(actionStack[k], indexStack[k])
    ensures var top := |actions| - 1;
      actions == PathOf(actionStack, indexStack, top) + [ReadBack(actionStack[top], indexStack[top])]
  {
  }

  /**
   * The turn the loop emits on a frame above the first is the one the
   * recursive enumerator emits at that point: read before the top index
   * moves (`lag`) or after it.
   */
  lemma {:induction false} ClosingTurn(actionStack: seq<seq<PlayerAction>>, indexStack: seq<nat>, readIndex: seq<nat>,
                                       actions: seq<PlayerAction>, lag: bool)
    requires |actionStack| == |indexStack| == |readIndex| == |actions| >= 2
    requires Chosen(actionStack, indexStack, |actions| - 1)
    requires indexStack[|actions| - 1] < |actionStack[|actions| - 1]|
    requires readIndex == if lag then indexStack else indexStack[|actions| - 1 := indexStack[|actions| - 1] + 1]
    requires forall k :: 0 <= k < |actions| ==> actions[k] == ReadBack(actionStack[k], readIndex[k])
    ensures var top := |actions| - 1;
      Emitted(PathOf(actionStack, indexStack, top), actionStack[top], indexStack[top], lag) == [PlayerTurn(actions)]
  {
    var top := |actions| - 1;
    CurrentTurnIsPath(actionStack, readIndex, actions);
    PathOfAgree(actionStack, readIndex, actionStack, indexStack, top);
  }

  /**
   * The live iterative enumerator, as written: on each step it builds the
   * current turn before moving the top frame's index past the action just
   * tried, so the turn ends with the top frame's previously tried action
   * (its last one, for the frame's first action).
   */
  method EnumerateValidTurnsAsWritten(state: GameState) returns (turns: seq<PlayerTurn>)
    ensures turns == TurnsFrom([], state, true)
    ensures forall t :: t in turns ==> |t.actions| >= 2 && TakeTurnSpec(state, t).Ok?
  {
    ghost var total := TurnsFrom([], state, true);
    turns := [];
    var first := AllValidActions(state);
    var validActionsStack: seq<seq<PlayerAction>> := [first];
    var actionIndexStack: seq<nat> := [0];
    var stateStack: seq<GameState> := [state];
    ghost var owed: seq<seq<PlayerTurn>> := [total];
    ghost var costs: seq<nat> := [Steps(state, 0)];
    StartFrames(state, true);
    while |stateStack| != 0
      invariant Frames(validActionsStack, actionIndexStack, stateStack, owed, costs, true)
      invariant turns + Owed(owed) == total
      decreases Sum(costs)
    {
      var top := |stateStack| - 1;
      var i := actionIndexStack[top];
      if i < |validActionsStack[top]| {
        var action := validActionsStack[top][i];
        ValidActionSucceeds(stateStack[top], action);
        var newState := TakeAction(stateStack[top], action).value;
        ghost var emitted := Emitted(PathOf(validActionsStack, actionIndexStack, top), validActionsStack[top], i, true);
        ghost var turnsBefore := turns;
        FramesReadable(validActionsStack, actionIndexStack, stateStack, owed, costs, true);
        if |stateStack| >= 2 {
          var actions := CurrentTurn(validActionsStack, actionIndexStack);
          ClosingTurn(validActionsStack, actionIndexStack, actionIndexStack, actions, true);
          turns := turns + [PlayerTurn(actions)];
        }
        assert turns == turnsBefore + emitted;
        var nextActions := AllValidActions(newState);
        var actions' := validActionsStack + [nextActions];
        var index' := actionIndexStack[top := i + 1] + [0];
        var states' := stateStack + [newState];
        owed, costs := PushFrame(validActionsStack, actionIndexStack, stateStack, owed, costs, true, newState,
                                 actions', index', states');
        EmitOwed(turnsBefore, emitted, Owed(owed), total);
        validActionsStack, actionIndexStack, stateStack := actions', index', states';
      } else {
        PopFrame(validActionsStack, actionIndexStack, stateStack, owed, costs, true);
        owed, costs := owed[..top], costs[..top];
        validActionsStack, actionIndexStack, stateStack := validActionsStack[..top], actionIndexStack[..top], stateStack[..top];
      }
    }
    forall t | t in turns ensures |t.actions| >= 2 && TakeTurnSpec(state, t).Ok? {
      EnumeratedTurnsSucceed(state, true, t);
    }
  }

  /**
   * The iterative enumerator with the top frame's index advanced before the
   * turn is built, so each turn ends with the action just tried: it lists
   * exactly the turns of the recursive enumerator, in the same order.
   */
  method EnumerateValidTurns(state: GameState) returns (turns: seq<PlayerTurn>)
    ensures turns == ValidTurns(state)
  {
    ghost var total := TurnsFrom([], state, false);
    turns := [];
    var first := AllValidActions(state);
    var validActionsStack: seq<seq<PlayerAction>> := [first];
    var actionIndexStack: seq<nat> := [0];
    var stateStack: seq<GameState> := [state];
    ghost var owed: seq<seq<PlayerTurn>> := [total];
    ghost var costs: seq<nat> := [Steps(state, 0)];
    StartFrames(state, false);
    while |stateStack| != 0
      invariant Frames(validActionsStack, actionIndexStack, stateStack, owed, costs, false)
      invariant turns + Owed(owed) == total
      decreases Sum(costs)
    {
      var top := |stateStack| - 1;
      var i := actionIndexStack[top];
      if i < |validActionsStack[top]| {
        var action := validActionsStack[top][i];
        ValidActionSucceeds(stateStack[top], action);
        var newState := TakeAction(stateStack[top], action).value;
        ghost var emitted := Emitted(PathOf(validActionsStack, actionIndexStack, top), validActionsStack[top], i, false);
        ghost var turnsBefore := turns;
        ghost var indexBefore := actionIndexStack;
        FramesReadable(validActionsStack, actionIndexStack, stateStack, owed, costs, false);
        actionIndexStack := actionIndexStack[top := i + 1];
        if |stateStack| >= 2 {
          var actions := CurrentTurn(validActionsStack, actionIndexStack);
          ClosingTurn(validActionsStack, indexBefore, actionIndexStack, actions, false);
          turns := turns + [PlayerTurn(actions)];
        }
        assert turns == turnsBefore + emitted;
        var nextActions := AllValidActions(newState);
        var actions' := validActionsStack + [nextActions];
        var index' := actionIndexStack + [0];
        var states' := stateStack + [newState];
        owed, costs := PushFrame(validActionsStack, indexBefore, stateStack, owed, costs, false, newState,
                                 actions', index', states');
        EmitOwed(turnsBefore, emitted, Owed(owed), total);
        validActionsStack, actionIndexStack, stateStack := actions', index', states';
      } else {
        PopFrame(validActionsStack, actionIndexStack, stateStack, owed, costs, false);
        owed, costs := owed[..top], costs[..top];
        validActionsStack, actionIndexStack, stateStack := validActionsStack[..top], actionIndexStack[..top], stateStack[..top];
      }
    }
  }
}
