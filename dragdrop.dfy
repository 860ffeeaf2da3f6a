/** The capitals matching game of frontend/src/components/DragAndDropComponent.tsx:
    six state buckets, the capitals not yet placed, the capital being dragged, a
    success count, a completion flag and an error message, changed by the drag
    and drop handlers. */
module DragAndDrop {
  import opened Wrappers
  import opened Capitals
  import Seqs

  /** `Bucket`: a state label, the capital dropped on it (if any) and its emoji. */
  datatype Bucket = Bucket(state: string, capital: Option<Capital>, emoji: string)

  /** The initial value of the `buckets` state: the six states, all empty. */
  const InitialBuckets: seq<Bucket> := [
    Bucket("Maine", None, "\U{1F99E}"),
    Bucket("New Hampshire", None, "\U{1F3D4}\U{FE0F}"),
    Bucket("Vermont", None, "\U{1F341}"),
    Bucket("Massachusetts", None, "\U{1F9D1}\U{200D}\U{1F33E}"),
    Bucket("Rhode Island", None, "\U{26F5}"),
    Bucket("Connecticut", None, "\U{1F355}")
  ]

  /** The count at which the game is declared complete (`newCount === 6`). */
  const Goal: int := 6

  predicate DistinctStates(buckets: seq<Bucket>) {
    forall i, j :: 0 <= i < j < |buckets| ==> buckets[i].state != buckets[j].state
  }

  /** Each capital's state labels exactly one bucket, and no two buckets share a label. */
  lemma BucketsMatchCapitals()
    ensures |InitialBuckets| == |CapitalsData| == Goal
    ensures DistinctStates(InitialBuckets)
    ensures forall i :: 0 <= i < |CapitalsData| ==> InitialBuckets[i].state == CapitalsData[i].state
    ensures forall i :: 0 <= i < |InitialBuckets| ==> InitialBuckets[i].capital.None?
  {
  }

  /** `cap => cap.id !== id`. */
  function OtherId(id: int): Capital -> bool {
    (c: Capital) => c.id != id
  }

  /** `b.capital?.id === id`. */
  predicate Holds(b: Bucket, id: int) {
    b.capital.Some? && b.capital.value.id == id
  }

  function Filled(b: Bucket): nat {
    if b.capital.Some? then 1 else 0
  }

  /** The number of buckets holding a capital. */
  function FilledCount(buckets: seq<Bucket>): (n: nat)
    ensures n <= |buckets|
  {
    if buckets == [] then 0 else Filled(buckets[0]) + FilledCount(buckets[1..])
  }

  /** `buckets.map(b => b.state === state ? { ...b, capital: c } : b)`. */
  function WithCapital(buckets: seq<Bucket>, state: string, c: Option<Capital>): (r: seq<Bucket>)
    ensures |r| == |buckets|
    ensures forall i :: 0 <= i < |r| ==> r[i].state == buckets[i].state && r[i].emoji == buckets[i].emoji
    ensures forall i :: 0 <= i < |r| && buckets[i].state == state ==> r[i].capital == c
    ensures forall i :: 0 <= i < |r| && buckets[i].state != state ==> r[i] == buckets[i]
  {
    seq(|buckets|, i requires 0 <= i < |buckets| => if buckets[i].state == state then buckets[i].(capital := c) else buckets[i])
  }

  /** Putting the same capital in the same bucket a second time changes nothing. */
  lemma WithCapitalAgain(buckets: seq<Bucket>, state: string, c: Option<Capital>)
    ensures WithCapital(WithCapital(buckets, state, c), state, c) == WithCapital(buckets, state, c)
  {
    var once := WithCapital(buckets, state, c);
    var twice := WithCapital(once, state, c);
    assert forall i :: 0 <= i < |twice| ==> twice[i] == once[i];
  }

  /** `prev.map(b => ({ ...b, capital: null }))`: labels kept, every bucket empty. */
  function Emptied(buckets: seq<Bucket>): (r: seq<Bucket>)
    ensures |r| == |buckets|
    ensures forall i :: 0 <= i < |r| ==> r[i].state == buckets[i].state && r[i].emoji == buckets[i].emoji
    ensures forall i :: 0 <= i < |r| ==> r[i].capital.None?
    ensures FilledCount(r) == 0
  {
    var r := seq(|buckets|, i requires 0 <= i < |buckets| => buckets[i].(capital := None));
    NoneFilled(r);
    r
  }

  /** The first bucket whose label is `state`. */
  function BucketOf(buckets: seq<Bucket>, state: string): (k: Option<nat>)
    ensures k.Some? ==> k.value < |buckets| && buckets[k.value].state == state
    ensures k.None? ==> forall i :: 0 <= i < |buckets| ==> buckets[i].state != state
  {
    if buckets == [] then None
    else if buckets[0].state == state then Some(0)
    else
      match BucketOf(buckets[1..], state)
      case None => None
      case Some(k) => Some(k + 1)
  }

  /** `buckets.find(b => b.capital?.id === id)`, as a position. */
  function FindHolding(buckets: seq<Bucket>, id: int): (k: Option<nat>)
    ensures k.Some? ==> k.value < |buckets| && Holds(buckets[k.value], id)
    ensures k.Some? ==> forall j :: 0 <= j < k.value ==> !Holds(buckets[j], id)
    ensures k.None? ==> forall j :: 0 <= j < |buckets| ==> !Holds(buckets[j], id)
  {
    if buckets == [] then None
    else if Holds(buckets[0], id) then Some(0)
    else
      match FindHolding(buckets[1..], id)
      case None => None
      case Some(k) => Some(k + 1)
  }

  const OopsPrefix: string := "\U{274C} Oops! "
  const NotTheCapitalOf: string := " is not the capital of "
  const TryAgain: string := ". Try again!"

  /** The message of a wrong drop; the capital and the state can be read back from it. */
  function WrongMatchMessage(capital: string, state: string): (m: string)
    ensures |m| == |OopsPrefix| + |capital| + |NotTheCapitalOf| + |state| + |TryAgain|
    ensures m[|OopsPrefix|..|OopsPrefix| + |capital|] == capital
    ensures m[|m| - |TryAgain| - |state|..|m| - |TryAgain|] == state
  {
    var m := OopsPrefix + capital + NotTheCapitalOf + state + TryAgain;
    assert m[|OopsPrefix|..|OopsPrefix| + |capital|] == capital;
    assert m[|m| - |TryAgain| - |state|..|m| - |TryAgain|] == state;
    m
  }

  // ---------------------------------------------------------------------
  // Counting filled buckets

  lemma {:induction false} NoneFilled(buckets: seq<Bucket>)
    requires forall i :: 0 <= i < |buckets| ==> buckets[i].capital.None?
    ensures FilledCount(buckets) == 0
  {
    if buckets != [] {
      NoneFilled(buckets[1..]);
    }
  }

  lemma {:induction false} FilledAgree(b: seq<Bucket>, r: seq<Bucket>)
    requires |b| == |r|
    requires forall i :: 0 <= i < |b| ==> Filled(r[i]) == Filled(b[i])
    ensures FilledCount(r) == FilledCount(b)
  {
    if b != [] {
      FilledAgree(b[1..], r[1..]);
    }
  }

  /** Changing one bucket changes the count by that bucket's difference. */
  lemma {:induction false} FilledChange(b: seq<Bucket>, r: seq<Bucket>, k: nat)
    requires |b| == |r| && k < |b|
    requires forall i :: 0 <= i < |b| && i != k ==> Filled(r[i]) == Filled(b[i])
    ensures FilledCount(r) + Filled(b[k]) == FilledCount(b) + Filled(r[k])
  {
    if k == 0 {
      FilledAgree(b[1..], r[1..]);
    } else {
      FilledChange(b[1..], r[1..], k - 1);
    }
  }

  /** An empty bucket keeps the count below the number of buckets. */
  lemma {:induction false} EmptyBucketBelow(b: seq<Bucket>, k: nat)
    requires k < |b| && b[k].capital.None?
    ensures FilledCount(b) < |b|
  {
    if k > 0 {
      EmptyBucketBelow(b[1..], k - 1);
    }
  }

  /** When the count equals the number of buckets, every bucket is filled. */
  lemma {:induction false} AllFilled(b: seq<Bucket>)
    requires FilledCount(b) == |b|
    ensures forall i :: 0 <= i < |b| ==> b[i].capital.Some?
  {
    if b != [] {
      AllFilled(b[1..]);
      assert forall i :: 1 <= i < |b| ==> b[i] == b[1..][i - 1];
    }
  }

  /** Setting the capital of the one bucket labelled like `b[k]` changes only that bucket's share. */
  lemma SetOneBucket(b: seq<Bucket>, k: nat, c: Option<Capital>)
    requires k < |b| && DistinctStates(b)
    ensures FilledCount(WithCapital(b, b[k].state, c)) + Filled(b[k]) == FilledCount(b) + Filled(b[k].(capital := c))
  {
    var r := WithCapital(b, b[k].state, c);
    forall i | 0 <= i < |b| && i != k ensures Filled(r[i]) == Filled(b[i]) {
      assert b[i].state != b[k].state;
    }
    FilledChange(b, r, k);
  }

  /** The buckets keep the labels and emojis of the initial six. */
  ghost predicate Labelled(buckets: seq<Bucket>) {
    && |buckets| == |InitialBuckets|
    && forall i :: 0 <= i < |buckets| ==>
         buckets[i].state == InitialBuckets[i].state && buckets[i].emoji == InitialBuckets[i].emoji
  }

  /** Every filled bucket holds a capital of its own state. */
  ghost predicate OwnStates(buckets: seq<Bucket>) {
    forall i :: 0 <= i < |buckets| && buckets[i].capital.Some? ==> buckets[i].capital.value.state == buckets[i].state
  }

  /** Buckets with the initial labels have pairwise distinct labels. */
  lemma LabelledDistinct(b: seq<Bucket>)
    requires Labelled(b)
    ensures DistinctStates(b)
  {
    BucketsMatchCapitals();
    forall i, j | 0 <= i < j < |b| ensures b[i].state != b[j].state {
      assert b[i].state == InitialBuckets[i].state && b[j].state == InitialBuckets[j].state;
    }
  }

  /** Changing the capital of a bucket keeps the labels. */
  lemma WithCapitalLabelled(b: seq<Bucket>, state: string, c: Option<Capital>)
    requires Labelled(b)
    ensures Labelled(WithCapital(b, state, c))
  {
    var r := WithCapital(b, state, c);
    forall i | 0 <= i < |r| ensures r[i].state == InitialBuckets[i].state && r[i].emoji == InitialBuckets[i].emoji {
      assert r[i].state == b[i].state && r[i].emoji == b[i].emoji;
    }
  }

  /** Putting a capital in the bucket of its own state keeps the own-state rule. */
  lemma WithCapitalOwnStates(b: seq<Bucket>, c: Capital)
    requires OwnStates(b)
    ensures OwnStates(WithCapital(b, c.state, Some(c)))
  {
    var r := WithCapital(b, c.state, Some(c));
    forall i | 0 <= i < |r| && r[i].capital.Some? ensures r[i].capital.value.state == r[i].state {
      if b[i].state != c.state {
        assert r[i] == b[i];
      }
    }
  }

  /** Filling an empty bucket with a capital of its own state keeps the labels and the
      own-state rule, and adds one filled bucket, still at most six. */
  lemma FillEmpty(b: seq<Bucket>, k: nat, c: Capital)
    requires Labelled(b) && OwnStates(b)
    requires k < |b| && b[k].capital.None? && c.state == b[k].state
    ensures Labelled(WithCapital(b, c.state, Some(c)))
    ensures OwnStates(WithCapital(b, c.state, Some(c)))
    ensures FilledCount(WithCapital(b, c.state, Some(c))) == FilledCount(b) + 1
    ensures FilledCount(b) < Goal
  {
    WithCapitalLabelled(b, c.state, Some(c));
    WithCapitalOwnStates(b, c);
    LabelledDistinct(b);
    SetOneBucket(b, k, Some(c));
    assert Filled(b[k]) == 0 && Filled(b[k].(capital := Some(c))) == 1;
    EmptyBucketBelow(b, k);
  }

  /** Emptying a filled bucket keeps the labels and the own-state rule, and removes one
      filled bucket. */
  lemma EmptyFilled(b: seq<Bucket>, k: nat)
    requires Labelled(b) && k < |b| && b[k].capital.Some?
    ensures Labelled(WithCapital(b, b[k].state, None))
    ensures OwnStates(b) ==> OwnStates(WithCapital(b, b[k].state, None))
    ensures WithCapital(b, b[k].state, None)[k].capital.None?
    ensures FilledCount(WithCapital(b, b[k].state, None)) == FilledCount(b) - 1
  {
    var r := WithCapital(b, b[k].state, None);
    WithCapitalLabelled(b, b[k].state, None);
    if OwnStates(b) {
      forall i | 0 <= i < |r| && r[i].capital.Some? ensures r[i].capital.value.state == r[i].state {
        if b[i].state != b[k].state {
          assert r[i] == b[i];
        }
      }
    }
    LabelledDistinct(b);
    SetOneBucket(b, k, None);
    assert Filled(b[k]) == 1 && Filled(b[k].(capital := None)) == 0;
  }

  // ---------------------------------------------------------------------
  // The component's state

  class CapitalsGame {
    var availableCapitals: seq<Capital>
    var buckets: seq<Bucket>
    var draggedCapital: Option<Capital>
    var errorMessage: string
    var successCount: int
    var gameComplete: bool

    /** The six labelled buckets never change their labels or emojis. */
    ghost predicate Valid()
      reads this
    {
      Labelled(buckets)
    }

    /** The bookkeeping the game is meant to keep: the count is the number of filled buckets,
        a filled bucket holds a capital of its own state, and completion means all are filled. */
    ghost predicate Consistent()
      reads this
    {
      && Labelled(buckets)
      && successCount == FilledCount(buckets)
      && OwnStates(buckets)
      && (gameComplete ==> successCount == Goal)
    }

    /** A complete game under the intended bookkeeping has each of the six buckets holding
        a capital of its own state. */
    lemma CompleteMeansAllPlaced()
      requires Consistent() && gameComplete
      ensures |buckets| == Goal
      ensures forall i :: 0 <= i < |buckets| ==>
                buckets[i].capital.Some? && buckets[i].capital.value.state == InitialBuckets[i].state
    {
      AllFilled(buckets);
    }

    /** The initial state values; the capitals arrive with `LoadCapitals`. */
    constructor ()
      ensures Consistent()
      ensures availableCapitals == [] && buckets == InitialBuckets && draggedCapital == None
      ensures errorMessage == "" && successCount == 0 && !gameComplete
    {
      availableCapitals := [];
      buckets := InitialBuckets;
      draggedCapital := None;
      errorMessage := "";
      successCount := 0;
      gameComplete := false;
      new;
      NoneFilled(InitialBuckets);
    }

    /** `loadCapitals`: the available capitals become a copy of the data. */
    method LoadCapitals()
      modifies this
      ensures availableCapitals == CapitalsData
      ensures buckets == old(buckets) && draggedCapital == old(draggedCapital) && errorMessage == old(errorMessage)
      ensures successCount == old(successCount) && gameComplete == old(gameComplete)
    {
      var copy := GetCapitals();
      availableCapitals := copy[..];
    }

    /** `handleDragStart`: remember the capital and clear the message. */
    method DragStart(capital: Capital)
      modifies this
      ensures draggedCapital == Some(capital) && errorMessage == ""
      ensures availableCapitals == old(availableCapitals) && buckets == old(buckets)
      ensures successCount == old(successCount) && gameComplete == old(gameComplete)
    {
      draggedCapital := Some(capital);
      errorMessage := "";
    }

    /** `handleDropOnBucket` as written: a correct drop always counts, even when the capital
        was dragged out of the very bucket it is dropped back on. */
    method DropOnBucketAsWritten(bucket: Bucket)
      requires Valid()
      modifies this
      ensures Valid()
      ensures old(draggedCapital).None? ==>
                && availableCapitals == old(availableCapitals) && buckets == old(buckets) && draggedCapital == None
                && errorMessage == old(errorMessage) && successCount == old(successCount) && gameComplete == old(gameComplete)
      ensures old(draggedCapital).Some? && old(draggedCapital).value.state == bucket.state ==>
                && buckets == WithCapital(old(buckets), bucket.state, old(draggedCapital))
                && availableCapitals == Seqs.Filter(OtherId(old(draggedCapital).value.id), old(availableCapitals))
                && successCount == old(successCount) + 1 && errorMessage == ""
                && gameComplete == (old(gameComplete) || old(successCount) + 1 == Goal)
                && draggedCapital == None
      ensures old(draggedCapital).Some? && old(draggedCapital).value.state != bucket.state ==>
                && availableCapitals == old(availableCapitals) && buckets == old(buckets)
                && successCount == old(successCount) && gameComplete == old(gameComplete)
                && errorMessage == WrongMatchMessage(old(draggedCapital).value.capital, bucket.state)
                && draggedCapital == None
    {
      if draggedCapital.None? {
        return;
      }
      var capital := draggedCapital.value;
      if capital.state == bucket.state {
        buckets := WithCapital(buckets, bucket.state, draggedCapital);
        availableCapitals := Seqs.Filter(OtherId(capital.id), availableCapitals);
        var newCount := successCount + 1;
        successCount := newCount;
        errorMessage := "";
        if newCount == Goal {
          gameComplete := true;
        }
      } else {
        errorMessage := WrongMatchMessage(capital.capital, bucket.state);
      }
      draggedCapital := None;
    }

    /** `handleDropOnBucket` with the count guarded: a correct drop counts only when the bucket
        labelled `bucket.state` was empty; dropping a capital back on its own bucket changes
        nothing but the drag. This keeps the bookkeeping consistent. */
    method DropOnBucket(bucket: Bucket)
      requires Consistent()
      modifies this
      ensures Consistent()
      ensures draggedCapital == None
      ensures old(draggedCapital).None? ==>
                && availableCapitals == old(availableCapitals) && buckets == old(buckets)
                && errorMessage == old(errorMessage) && successCount == old(successCount) && gameComplete == old(gameComplete)
      ensures old(draggedCapital).Some? && old(draggedCapital).value.state == bucket.state ==> (
                var k := BucketOf(old(buckets), bucket.state);
                if k.Some? && old(buckets)[k.value].capital.None? then
                  && buckets == WithCapital(old(buckets), bucket.state, old(draggedCapital))
                  && availableCapitals == Seqs.Filter(OtherId(old(draggedCapital).value.id), old(availableCapitals))
                  && successCount == old(successCount) + 1 && errorMessage == ""
                  && gameComplete == (old(successCount) + 1 == Goal)
                else
                  && availableCapitals == old(availableCapitals) && buckets == old(buckets)
                  && errorMessage == old(errorMessage) && successCount == old(successCount) && gameComplete == old(gameComplete))
      ensures old(draggedCapital).Some? && old(draggedCapital).value.state != bucket.state ==>
                && availableCapitals == old(availableCapitals) && buckets == old(buckets)
                && successCount == old(successCount) && gameComplete == old(gameComplete)
                && errorMessage == WrongMatchMessage(old(draggedCapital).value.capital, bucket.state)
    {
      if draggedCapital.None? {
        return;
      }
      var capital := draggedCapital.value;
      if capital.state == bucket.state {
        var k := BucketOf(buckets, bucket.state);
        if k.Some? && buckets[k.value].capital.None? {
          FillEmpty(buckets, k.value, capital);
          buckets := WithCapital(buckets, bucket.state, draggedCapital);
          availableCapitals := Seqs.Filter(OtherId(capital.id), availableCapitals);
          var newCount := successCount + 1;
          successCount := newCount;
          errorMessage := "";
          if newCount == Goal {
            gameComplete := true;
          }
        }
      } else {
        errorMessage := WrongMatchMessage(capital.capital, bucket.state);
      }
      draggedCapital := None;
    }

    /** `handleDropOnAvailable`: a capital that sits in a bucket goes back to the end of the
        available list, its bucket is emptied, the count drops by one and the game is not
        complete; a capital that sits in no bucket changes only the drag. */
    method DropOnAvailable()
      requires Valid()
      modifies this
      ensures Valid()
      ensures draggedCapital == None
      ensures old(draggedCapital).Some? && FindHolding(old(buckets), old(draggedCapital).value.id).Some? ==> (
                var k := FindHolding(old(buckets), old(draggedCapital).value.id).value;
                && availableCapitals == old(availableCapitals) + [old(draggedCapital).value]
                && buckets == WithCapital(old(buckets), old(buckets)[k].state, None)
                && buckets[k].capital.None?
                && successCount == old(successCount) - 1 && errorMessage == "" && !gameComplete)
      ensures old(draggedCapital).None? || FindHolding(old(buckets), old(draggedCapital).value.id).None? ==>
                && availableCapitals == old(availableCapitals) && buckets == old(buckets)
                && errorMessage == old(errorMessage) && successCount == old(successCount) && gameComplete == old(gameComplete)
      ensures old(Consistent()) ==> Consistent()
    {
      if draggedCapital.None? {
        return;
      }
      var capital := draggedCapital.value;
      var k := FindHolding(buckets, capital.id);
      if k.Some? {
        EmptyFilled(buckets, k.value);
        availableCapitals := availableCapitals + [capital];
        buckets := WithCapital(buckets, buckets[k.value].state, None);
        successCount := successCount - 1;
        errorMessage := "";
        gameComplete := false;
      }
      draggedCapital := None;
    }

    /** `resetGame`: every bucket emptied, count zero, message cleared, game not complete,
        and the capitals loaded again; the drag is left as it was. */
    method ResetGame()
      requires Valid()
      modifies this
      ensures Consistent()
      ensures buckets == Emptied(old(buckets))
      ensures successCount == 0 && errorMessage == "" && !gameComplete
      ensures availableCapitals == CapitalsData && draggedCapital == old(draggedCapital)
    {
      buckets := Emptied(buckets);
      successCount := 0;
      errorMessage := "";
      gameComplete := false;
      LoadCapitals();
    }
  }

  // ---------------------------------------------------------------------
  // The count drifts in the handler as written

  /** Augusta belongs in the Maine bucket, and with it there exactly one bucket is filled. */
  lemma AugustaInMaine()
    ensures InitialBuckets[0].state == CapitalsData[0].state
    ensures FilledCount(WithCapital(InitialBuckets, InitialBuckets[0].state, Some(CapitalsData[0]))) == 1
  {
    BucketsMatchCapitals();
    NoneFilled(InitialBuckets);
    SetOneBucket(InitialBuckets, 0, Some(CapitalsData[0]));
  }

  /** One drag of `c` onto its own bucket `b` through the handler as written: it always
      counts a match. */
  method DragOntoAsWritten(game: CapitalsGame, c: Capital, b: Bucket)
    requires game.Valid() && c.state == b.state
    modifies game
    ensures game.Valid()
    ensures game.buckets == WithCapital(old(game.buckets), b.state, Some(c))
    ensures game.successCount == old(game.successCount) + 1
    ensures game.gameComplete == (old(game.gameComplete) || old(game.successCount) + 1 == Goal)
  {
    game.DragStart(c);
    game.DropOnBucketAsWritten(b);
  }

  /** Augusta dropped on Maine, dragged out of the Maine bucket and dropped back on it, five
      more times: the handler as written counts six matches and declares the game complete
      while one bucket of six is filled. */
  method RepeatedDropAsWritten() returns (count: int, filled: nat, complete: bool)
    ensures count == 6 && filled == 1 && complete
  {
    var game := new CapitalsGame();
    game.LoadCapitals();
    var augusta := CapitalsData[0];
    var maine := InitialBuckets[0];
    AugustaInMaine();
    DragOntoAsWritten(game, augusta, maine);
    var n := 1;
    while n < Goal
      invariant 1 <= n <= Goal
      invariant game.Valid()
      invariant game.successCount == n && game.gameComplete == (n == Goal)
      invariant game.buckets == WithCapital(InitialBuckets, maine.state, Some(augusta))
    {
      DragOntoAsWritten(game, augusta, maine);
      WithCapitalAgain(InitialBuckets, maine.state, Some(augusta));
      n := n + 1;
    }
    count, filled, complete := game.successCount, FilledCount(game.buckets), game.gameComplete;
  }

  /** The same drops through the guarded handler count one match and leave the game open. */
  method RepeatedDrop() returns (count: int, filled: nat, complete: bool)
    ensures count == 1 && filled == 1 && !complete
  {
    var game := new CapitalsGame();
    game.LoadCapitals();
    var augusta := CapitalsData[0];
    var maine := InitialBuckets[0];
    game.DragStart(augusta);
    game.DropOnBucket(maine);
    var n := 1;
    while n < Goal
      invariant 1 <= n <= Goal
      invariant game.Consistent()
      invariant game.successCount == 1 && !game.gameComplete
      invariant game.buckets == WithCapital(InitialBuckets, maine.state, Some(augusta))
    {
      game.DragStart(augusta);
      game.DropOnBucket(maine);
      n := n + 1;
    }
    count, filled, complete := game.successCount, FilledCount(game.buckets), game.gameComplete;
  }
}
