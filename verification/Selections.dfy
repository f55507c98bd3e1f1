/**
 Sublists that keep the order of what they were taken from.
 */
module Selections {

  ghost predicate TakenAt<T>(whole: seq<T>, part: seq<T>, at: seq<nat>, j: nat) {
    j < |at| && j < |part| ==>
      && at[j] < |whole| && part[j] == whole[at[j]] && (j > 0 ==> at[j - 1] < at[j])
  }

  ghost predicate WantedAt(at: seq<nat>, wanted: set<nat>, i: nat) {
    i in at <==> i in wanted
  }

  /** The part holds what stands at exactly the wanted positions of the whole, in order. */
  ghost predicate Selects<T>(whole: seq<T>, part: seq<T>, at: seq<nat>, wanted: set<nat>) {
    |part| == |at| && (forall j: nat :: TakenAt(whole, part, at, j)) && forall i: nat :: WantedAt(at, wanted, i)
  }

  lemma SelectNone<T>(whole: seq<T>, part: seq<T>, at: seq<nat>, wanted: set<nat>)
    requires part == [] && at == [] && wanted == {}
    ensures Selects(whole, part, at, wanted)
  {
  }

  lemma SelectSkip<T>(whole: seq<T>, part: seq<T>, at: seq<nat>, wanted: set<nat>, whole': seq<T>)
    requires Selects(whole, part, at, wanted) && whole <= whole'
    ensures Selects(whole', part, at, wanted)
  {
    forall j: nat ensures TakenAt(whole', part, at, j) { assert TakenAt(whole, part, at, j); }
  }

  lemma SelectTake<T>(whole: seq<T>, part: seq<T>, at: seq<nat>, wanted: set<nat>, x: T)
    requires Selects(whole, part, at, wanted) && forall i :: i in wanted ==> i < |whole|
    ensures Selects(whole + [x], part + [x], at + [|whole|], wanted + {|whole|})
  {
    var whole', part', at', wanted' := whole + [x], part + [x], at + [|whole|], wanted + {|whole|};
    forall j: nat ensures TakenAt(whole', part', at', j) {
      assert TakenAt(whole, part, at, j);
      if j == |at| && j > 0 { assert TakenAt(whole, part, at, j - 1); }
    }
    forall i: nat ensures WantedAt(at', wanted', i) { assert WantedAt(at, wanted, i); }
  }

  /** The next element of the whole is taken if it is wanted. */
  lemma SelectNext<T>(whole: seq<T>, part: seq<T>, at: seq<nat>, wanted: set<nat>, take: bool,
                      whole': seq<T>, part': seq<T>, wanted': set<nat>)
      returns (at': seq<nat>)
    requires Selects(whole, part, at, wanted) && |whole'| == |whole| + 1 && whole == whole'[..|whole|]
    requires part' == (if take then part + [whole'[|whole|]] else part)
    requires wanted' == (if take then wanted + {|whole|} else wanted) && forall i :: i in wanted ==> i < |whole|
    ensures Selects(whole', part', at', wanted')
  {
    assert whole' == whole + [whole'[|whole|]];
    if take {
      SelectTake(whole, part, at, wanted, whole'[|whole|]);
      at' := at + [|whole|];
    } else {
      SelectSkip(whole, part, at, wanted, whole');
      at' := at;
    }
  }
}
