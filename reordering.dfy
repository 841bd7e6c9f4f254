/**
 * What the lagged reading of the closing action does to the enumeration.
 *
 * Within one frame the live enumerator closes the turn for action `i` with
 * action `i - 1` (and the turn for action 0 with the frame's last action):
 * over the whole frame that is a rotation of the closing actions. The turns
 * that extend each action are unaffected in kind, so the live enumerator
 * lists the same turns as the recursive one, each as often, in another
 * order.
 */
module Reordering {
  import opened Cards
  import opened GameStates
  import opened Transitions
  import opened Enumeration

  /** The turns a frame emits itself, from index `i` on. */
  function ClosingsFrom(path: seq<PlayerAction>, actions: seq<PlayerAction>, i: nat, lag: bool): (r: seq<PlayerTurn>)
    requires i <= |actions|
    ensures |path| + 1 >= 2 ==> |r| == |actions| - i
    ensures |path| + 1 < 2 ==> r == []
  {
    if |path| + 1 >= 2 then
      seq(|actions| - i, k requires 0 <= k < |actions| - i => PlayerTurn(path + [Closing(actions, i + k, lag)]))
    else []
  }

  /** The turns of the frames opened by the actions from index `i` on. */
  function SubtreesFrom(path: seq<PlayerAction>, st: GameState, i: nat, lag: bool): seq<PlayerTurn>
    decreases |ValidActions(st)| - i
  {
    var actions := ValidActions(st);
    if i >= |actions| then []
    else
      ValidActionSucceeds(st, actions[i]);
      TurnsFrom(path + [actions[i]], TakeAction(st, actions[i]).value, lag) + SubtreesFrom(path, st, i + 1, lag)
  }

  lemma {:induction false} ClosingsStep(path: seq<PlayerAction>, actions: seq<PlayerAction>, i: nat, lag: bool)
    requires i < |actions|
    ensures ClosingsFrom(path, actions, i, lag) == Emitted(path, actions, i, lag) + ClosingsFrom(path, actions, i + 1, lag)
  {
    if |path| + 1 >= 2 {
      var l, r := ClosingsFrom(path, actions, i, lag), Emitted(path, actions, i, lag) + ClosingsFrom(path, actions, i + 1, lag);
      assert |l| == |r|;
      forall k | 0 <= k < |l| ensures l[k] == r[k] {
        if k > 0 {
          assert r[k] == ClosingsFrom(path, actions, i + 1, lag)[k - 1];
        }
      }
    }
  }

  /** A frame's turns from index `i`: its own closings and its subtrees' turns, counted apart. */
  lemma {:induction false} SplitTurns(path: seq<PlayerAction>, st: GameState, i: nat, lag: bool)
    requires i <= |ValidActions(st)|
    ensures multiset(TurnsFromIndex(path, st, i, lag))
      == multiset(ClosingsFrom(path, ValidActions(st), i, lag)) + multiset(SubtreesFrom(path, st, i, lag))
    decreases |ValidActions(st)| - i
  {
    var actions := ValidActions(st);
    if i < |actions| {
      SubtreesStep(path, st, i, lag);
      var deeper := TurnsFrom(path + [actions[i]], TakeAction(st, actions[i]).value, lag);
      TurnsFromIndexStep(path, st, i, lag);
      ClosingsStep(path, actions, i, lag);
      SplitTurns(path, st, i + 1, lag);
      Shuffle(Emitted(path, actions, i, lag), deeper,
              TurnsFromIndex(path, st, i + 1, lag), ClosingsFrom(path, actions, i + 1, lag), SubtreesFrom(path, st, i + 1, lag));
    }
  }

  lemma {:induction false} SubtreesStep(path: seq<PlayerAction>, st: GameState, i: nat, lag: bool)
    requires i < |ValidActions(st)|
    ensures var a := ValidActions(st)[i];
      && TakeAction(st, a).Ok?
      && SubtreesFrom(path, st, i, lag) == TurnsFrom(path + [a], TakeAction(st, a).value, lag) + SubtreesFrom(path, st, i + 1, lag)
  {
    ValidActionSucceeds(st, ValidActions(st)[i]);
  }

  /** Regrouping the three parts of a loop step, counted as multisets. */
  lemma {:induction false} Shuffle(emitted: seq<PlayerTurn>, deeper: seq<PlayerTurn>, rest: seq<PlayerTurn>,
                                   closings: seq<PlayerTurn>, subtrees: seq<PlayerTurn>)
    requires multiset(rest) == multiset(closings) + multiset(subtrees)
    ensures multiset(emitted + deeper + rest) == multiset(emitted + closings) + multiset(deeper + subtrees)
  {
  }

  /** The lagged closings of a frame are the true ones with the last moved to the front. */
  lemma {:induction false} LaggedIsRotation(path: seq<PlayerAction>, actions: seq<PlayerAction>)
    requires |path| + 1 >= 2 && |actions| > 0
    ensures var exact := ClosingsFrom(path, actions, 0, false);
      ClosingsFrom(path, actions, 0, true) == [exact[|actions| - 1]] + exact[..|actions| - 1]
  {
    var lagged, exact := ClosingsFrom(path, actions, 0, true), ClosingsFrom(path, actions, 0, false);
    var n := |actions|;
    forall k | 0 <= k < n ensures lagged[k] == ([exact[n - 1]] + exact[..n - 1])[k] {
      if k > 0 {
        assert ([exact[n - 1]] + exact[..n - 1])[k] == exact[k - 1];
      }
    }
  }

  /** Over a whole frame the lagged closings are a rotation of the true ones. */
  lemma {:induction false} ClosingsRotate(path: seq<PlayerAction>, actions: seq<PlayerAction>)
    ensures multiset(ClosingsFrom(path, actions, 0, true)) == multiset(ClosingsFrom(path, actions, 0, false))
  {
    if |path| + 1 >= 2 && |actions| > 0 {
      var exact := ClosingsFrom(path, actions, 0, false);
      var n := |actions|;
      LaggedIsRotation(path, actions);
      assert exact == exact[..n - 1] + [exact[n - 1]];
    }
  }

  /** The subtrees of a frame hold the same turns under either reading. */
  lemma {:induction false} SubtreesAgree(path: seq<PlayerAction>, st: GameState, i: nat)
    ensures multiset(SubtreesFrom(path, st, i, true)) == multiset(SubtreesFrom(path, st, i, false))
    decreases |st.hand|, 0, |ValidActions(st)| - i
  {
    var actions := ValidActions(st);
    if i < |actions| {
      ValidActionSucceeds(st, actions[i]);
      TurnsFromIndexStep(path, st, i, false);
      TurnsAgree(path + [actions[i]], TakeAction(st, actions[i]).value);
      SubtreesAgree(path, st, i + 1);
    }
  }

  /** From any frame, both readings list the same turns, each as often. */
  lemma {:induction false} TurnsAgree(path: seq<PlayerAction>, st: GameState)
    ensures multiset(TurnsFrom(path, st, true)) == multiset(TurnsFrom(path, st, false))
    decreases |st.hand|, 1, 0
  {
    SplitTurns(path, st, 0, true);
    SplitTurns(path, st, 0, false);
    ClosingsRotate(path, ValidActions(st));
    SubtreesAgree(path, st, 0);
  }

  /**
   * The live enumerator, as written, lists every valid turn exactly as often
   * as the corrected one does: only the order differs.
   */
  lemma {:induction false} AsWrittenIsPermutation(s: GameState)
    ensures multiset(TurnsFrom([], s, true)) == multiset(ValidTurns(s))
    ensures forall t :: t in TurnsFrom([], s, true) <==> |t.actions| >= 2 && Legal(s, t.actions)
  {
    TurnsAgree([], s);
    forall t ensures t in TurnsFrom([], s, true) <==> |t.actions| >= 2 && Legal(s, t.actions) {
      assert t in TurnsFrom([], s, true) <==> t in multiset(TurnsFrom([], s, true));
      assert t in ValidTurns(s) <==> t in multiset(ValidTurns(s));
      ValidTurnsExactly(s, t);
    }
  }

  /**
   * The state's valid turns (the source's `all_valid_turns`): the enumerator
   * as written, so in the lagged order, but every valid turn exactly as often
   * as the corrected enumerator lists it.
   */
  method AllValidTurns(s: GameState) returns (turns: seq<PlayerTurn>)
    ensures turns == TurnsFrom([], s, true)
    ensures multiset(turns) == multiset(ValidTurns(s))
    ensures forall t :: t in turns ==> |t.actions| >= 2 && TakeTurnSpec(s, t).Ok?
  {
    turns := EnumerateValidTurnsAsWritten(s);
    AsWrittenIsPermutation(s);
  }
}
