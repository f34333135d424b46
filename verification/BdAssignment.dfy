/** Buffer descriptors of a mem tile: which channel owns each block, and the number each block gets. */
module BdAssignment {
  import opened Options

  /** How a block ends: a channel starts (and the chain goes on to the next start), a next descriptor, or the end. */
  datatype Exit = Start(channel: nat, dest: nat, chain: nat) | Next(next: nat) | End

  datatype Block = Block(bds: nat, exit: Exit)

  predicate InBody(n: nat, exit: Exit) {
    match exit
    case Start(_, dest, chain) => dest < n && chain < n
    case Next(next) => next < n
    case End => true
  }

  type Body = blocks: seq<Block> | forall b <- blocks :: InBody(|blocks|, b.exit) witness []

  /** The first successor. */
  function Succ(blocks: Body, b: nat): (s: Option<nat>)
    requires b < |blocks|
    ensures s.Some? ==> s.value < |blocks|
  {
    match blocks[b].exit
    case Start(_, dest, _) => assert blocks[b] in blocks; Some(dest)
    case Next(next) => assert blocks[b] in blocks; Some(next)
    case End => None
  }

  predicate IsStart(blocks: Body, s: nat) { s < |blocks| && blocks[s].exit.Start? }

  function Channel(blocks: Body, s: nat): nat {
    if IsStart(blocks, s) then blocks[s].exit.channel else 0
  }

  // ----- which blocks a start reaches

  predicate Path(blocks: Body, s: nat, p: seq<nat>) {
    && |p| > 0 && p[0] == s
    && (forall i :: 0 <= i < |p| ==> p[i] < |blocks|)
    && (forall i :: 0 < i < |p| ==> Succ(blocks, p[i - 1]) == Some(p[i]))
  }

  /** Following first successors leads from a start to a block. */
  ghost predicate Reaches(blocks: Body, s: nat, b: nat) {
    IsStart(blocks, s) && exists p :: Path(blocks, s, p) && p[|p| - 1] == b
  }

  lemma ReachesSelf(blocks: Body, s: nat)
    requires IsStart(blocks, s)
    ensures Reaches(blocks, s, s)
  {
    assert Path(blocks, s, [s]) && [s][|[s]| - 1] == s;
  }

  lemma ReachesNext(blocks: Body, s: nat, b: nat)
    requires Reaches(blocks, s, b)
    ensures b < |blocks|
    ensures Succ(blocks, b).Some? ==> Reaches(blocks, s, Succ(blocks, b).value)
  {
    var p :| Path(blocks, s, p) && p[|p| - 1] == b;
    if Succ(blocks, b).Some? {
      var p' := p + [Succ(blocks, b).value];
      assert Path(blocks, s, p') && p'[|p'| - 1] == Succ(blocks, b).value;
    }
  }

  /** Every successor of a block in the set is in the set. */
  predicate Closed(blocks: Body, bs: set<nat>) {
    forall b <- bs :: b < |blocks| && (Succ(blocks, b).Some? ==> Succ(blocks, b).value in bs)
  }

  predicate ClosedBut(blocks: Body, bs: set<nat>, dest: nat) {
    forall b <- bs :: b < |blocks| && (Succ(blocks, b).Some? ==> Succ(blocks, b).value in bs + {dest})
  }

  lemma {:induction false} PathStaysInside(blocks: Body, bs: set<nat>, s: nat, p: seq<nat>)
    requires Closed(blocks, bs) && s in bs && Path(blocks, s, p)
    ensures p[|p| - 1] in bs
    decreases |p|
  {
    if |p| > 1 {
      PathStaysInside(blocks, bs, s, p[..|p| - 1]);
    }
  }

  lemma ReachesInside(blocks: Body, bs: set<nat>, s: nat, b: nat)
    requires Closed(blocks, bs) && s in bs && Reaches(blocks, s, b)
    ensures b in bs
  {
    var p :| Path(blocks, s, p) && p[|p| - 1] == b;
    PathStaysInside(blocks, bs, s, p);
  }

  // ----- the owner of a block

  /** A start writes itself and its destination, whatever was there before. */
  predicate Touches(blocks: Body, s: nat, b: nat) {
    IsStart(blocks, s) && (s == b || blocks[s].exit.dest == b)
  }

  /** Among the first `n` blocks, the start whose channel a block ends up with: the last that touches it,
      or the first that reaches it if none does. */
  ghost predicate Owner(blocks: Body, n: nat, b: nat, s: nat) {
    && s < n && Reaches(blocks, s, b)
    && (Touches(blocks, s, b) ==> forall s' | s < s' < n :: !Touches(blocks, s', b))
    && (!Touches(blocks, s, b) ==> forall s': nat | s' < n :: !Touches(blocks, s', b))
    && (!Touches(blocks, s, b) ==> forall s': nat | s' < s :: !Reaches(blocks, s', b))
  }

  /** Every block in the map has the channel of its owner. */
  ghost predicate Owned(blocks: Body, n: nat, channels: map<nat, nat>) {
    forall b <- channels :: exists s: nat :: Owner(blocks, n, b, s) && channels[b] == Channel(blocks, s)
  }

  lemma OwnerIsUnique(blocks: Body, n: nat, b: nat, s: nat, s': nat)
    requires Owner(blocks, n, b, s) && Owner(blocks, n, b, s')
    ensures s == s'
  {}

  /** The starts among the first `n` blocks are in the set. */
  predicate StartsMapped(blocks: Body, n: nat, bs: set<nat>) {
    forall s: nat | s < n && IsStart(blocks, s) :: s in bs
  }

  /** Maps every block to the channel that owns it. The walk along a chain stops at a block that is mapped already. */
  method MapChannels(blocks: Body) returns (channels: map<nat, nat>)
    ensures forall b: nat :: b in channels <==> exists s: nat :: Reaches(blocks, s, b)
    ensures Owned(blocks, |blocks|, channels)
  {
    channels := map[];
    var i := 0;
    hide Owned, StartsMapped, Closed;
    NothingMapped(blocks);
    while i < |blocks|
      invariant 0 <= i <= |blocks|
      invariant Closed(blocks, channels.Keys) && StartsMapped(blocks, i, channels.Keys)
      invariant Owned(blocks, i, channels)
    {
      if blocks[i].exit.Start? {
        channels := WalkChain(blocks, i, channels);
      } else {
        OwnedSkips(blocks, i, channels);
      }
      i := i + 1;
    }
    MappedIffReached(blocks, channels);
  }

  lemma NothingMapped(blocks: Body)
    ensures var m: map<nat, nat> := map[];
      Owned(blocks, 0, m) && Closed(blocks, m.Keys) && StartsMapped(blocks, 0, m.Keys)
  {}

  lemma OwnedSkips(blocks: Body, i: nat, channels: map<nat, nat>)
    requires Owned(blocks, i, channels) && StartsMapped(blocks, i, channels.Keys) && !IsStart(blocks, i)
    ensures Owned(blocks, i + 1, channels) && StartsMapped(blocks, i + 1, channels.Keys)
  {
    hide Reaches;
    forall b | b in channels ensures exists s: nat :: Owner(blocks, i + 1, b, s) && channels[b] == Channel(blocks, s) {
      var s: nat :| Owner(blocks, i, b, s) && channels[b] == Channel(blocks, s);
      assert Owner(blocks, i + 1, b, s);
    }
  }

  lemma MappedIffReached(blocks: Body, channels: map<nat, nat>)
    requires Closed(blocks, channels.Keys) && StartsMapped(blocks, |blocks|, channels.Keys)
    requires Owned(blocks, |blocks|, channels)
    ensures forall b: nat :: b in channels <==> exists s: nat :: Reaches(blocks, s, b)
  {
    forall b: nat, s: nat | Reaches(blocks, s, b) ensures b in channels {
      ReachesInside(blocks, channels.Keys, s, b);
    }
    hide Reaches;
    forall b: nat | b in channels ensures exists s: nat :: Reaches(blocks, s, b) {
      var s: nat :| Owner(blocks, |blocks|, b, s);
    }
  }

  /** What the walk from start `i` keeps, but for a block still to be written: the start writes what it touches or
      finds new, and leaves the rest. */
  ghost predicate Walked(blocks: Body, i: nat, before: map<nat, nat>, channels: map<nat, nat>, pending: set<nat>) {
    && IsStart(blocks, i)
    && before.Keys <= channels.Keys
    && (forall b <- channels | (Touches(blocks, i, b) || b !in before) && b !in pending ::
      channels[b] == Channel(blocks, i) && Reaches(blocks, i, b))
    && (forall b <- before :: !Touches(blocks, i, b) ==> channels[b] == before[b])
  }

  method WalkChain(blocks: Body, i: nat, before: map<nat, nat>) returns (channels: map<nat, nat>)
    requires IsStart(blocks, i)
    requires Closed(blocks, before.Keys) && StartsMapped(blocks, i, before.Keys) && Owned(blocks, i, before)
    ensures Closed(blocks, channels.Keys) && StartsMapped(blocks, i + 1, channels.Keys)
    ensures Owned(blocks, i + 1, channels)
  {
    hide Reaches, Walked, ClosedBut, Closed, Owned, StartsMapped, Touches, Unmapped, Left, AtStep, Succ, Channel;
    var chNum := blocks[i].exit.channel;
    channels := before[i := chNum];
    var dest: nat := blocks[i].exit.dest;
    var walking := true;
    WalkStarts(blocks, i, before);
    while walking
      invariant dest < |blocks| && i in channels
      invariant walking ==> AtStep(blocks, i, before, channels, dest)
      invariant !walking ==> Walked(blocks, i, before, channels, {}) && Closed(blocks, channels.Keys)
      decreases walking, Left(blocks, channels, dest)
    {
      WalkStep(blocks, i, before, channels, dest);
      channels := channels[dest := chNum];
      if Succ(blocks, dest) == None {
        walking := false;
      } else {
        dest := Succ(blocks, dest).value;
        if dest in channels {
          walking := false;
        }
      }
    }
    WalkedOwned(blocks, i, before, channels);
    WalkedStarts(blocks, i, before, channels);
  }

  /** The block about to be written. */
  ghost predicate AtStep(blocks: Body, i: nat, before: map<nat, nat>, channels: map<nat, nat>, dest: nat) {
    && Reaches(blocks, i, dest)
    && (Touches(blocks, i, dest) || dest !in before)
    && ClosedBut(blocks, channels.Keys, dest)
    && Walked(blocks, i, before, channels, {dest})
  }

  lemma WalkStarts(blocks: Body, i: nat, before: map<nat, nat>)
    requires IsStart(blocks, i) && Closed(blocks, before.Keys)
    ensures var channels := before[i := Channel(blocks, i)];
      AtStep(blocks, i, before, channels, blocks[i].exit.dest)
    ensures blocks[i].exit.dest < |blocks| && Channel(blocks, i) == blocks[i].exit.channel
  {
    ReachesSelf(blocks, i);
    ReachesNext(blocks, i, i);
    hide Reaches;
  }

  lemma WalkStep(blocks: Body, i: nat, before: map<nat, nat>, channels: map<nat, nat>, dest: nat)
    requires dest < |blocks|
    requires AtStep(blocks, i, before, channels, dest)
    ensures Channel(blocks, i) == blocks[i].exit.channel
    ensures var next := channels[dest := Channel(blocks, i)];
      match Succ(blocks, dest)
      case None => Walked(blocks, i, before, next, {}) && Closed(blocks, next.Keys)
      case Some(d) =>
        d < |blocks|
        && if d in next then Walked(blocks, i, before, next, {}) && Closed(blocks, next.Keys)
          else AtStep(blocks, i, before, next, d) && Left(blocks, next, d) < Left(blocks, channels, dest)
  {
    ReachesNext(blocks, i, dest);
    hide Reaches;
    var next := channels[dest := Channel(blocks, i)];
    assert Unmapped(blocks, next) == Unmapped(blocks, channels) - {dest};
  }

  lemma WalkedStarts(blocks: Body, i: nat, before: map<nat, nat>, channels: map<nat, nat>)
    requires Walked(blocks, i, before, channels, {}) && StartsMapped(blocks, i, before.Keys)
    requires i in channels
    ensures StartsMapped(blocks, i + 1, channels.Keys)
  {}

  function Unmapped(blocks: Body, channels: map<nat, nat>): set<nat> {
    (set b: nat | b < |blocks| && b !in channels)
  }

  function Left(blocks: Body, channels: map<nat, nat>, dest: nat): nat {
    |Unmapped(blocks, channels)| + if dest in channels then 1 else 0
  }

  lemma WalkedOwned(blocks: Body, i: nat, before: map<nat, nat>, channels: map<nat, nat>)
    requires Closed(blocks, before.Keys) && StartsMapped(blocks, i, before.Keys) && Owned(blocks, i, before)
    requires Walked(blocks, i, before, channels, {})
    ensures Owned(blocks, i + 1, channels)
  {
    hide Reaches, Owner, Closed, StartsMapped, Touches, Channel;
    forall b | b in channels ensures exists s: nat :: Owner(blocks, i + 1, b, s) && channels[b] == Channel(blocks, s) {
      if Touches(blocks, i, b) {
        TouchedIsOwned(blocks, i, b);
      } else if b in before {
        var s: nat :| Owner(blocks, i, b, s) && before[b] == Channel(blocks, s);
        OwnerStays(blocks, i, b, s);
      } else {
        NewIsOwned(blocks, i, before, b);
      }
    }
  }

  lemma TouchedIsOwned(blocks: Body, i: nat, b: nat)
    requires Reaches(blocks, i, b) && Touches(blocks, i, b)
    ensures Owner(blocks, i + 1, b, i)
  {
    hide Reaches;
  }

  lemma OwnerStays(blocks: Body, i: nat, b: nat, s: nat)
    requires Owner(blocks, i, b, s) && !Touches(blocks, i, b)
    ensures Owner(blocks, i + 1, b, s)
  {
    hide Reaches;
  }

  lemma TouchedIsMapped(blocks: Body, bs: set<nat>, s: nat, b: nat)
    requires Closed(blocks, bs) && s in bs && Touches(blocks, s, b)
    ensures b in bs
  {
    assert Succ(blocks, s) == Some(blocks[s].exit.dest);
  }

  lemma NewIsOwned(blocks: Body, i: nat, before: map<nat, nat>, b: nat)
    requires Closed(blocks, before.Keys) && StartsMapped(blocks, i, before.Keys)
    requires Reaches(blocks, i, b) && !Touches(blocks, i, b) && b !in before
    ensures Owner(blocks, i + 1, b, i)
  {
    forall s': nat | s' < i ensures !Touches(blocks, s', b) && !Reaches(blocks, s', b) {
      if Reaches(blocks, s', b) {
        ReachesInside(blocks, before.Keys, s', b);
      }
      hide Reaches;
      if Touches(blocks, s', b) {
        TouchedIsMapped(blocks, before.Keys, s', b);
      }
    }
  }

  // ----- numbers

  const HALF: nat := 24

  predicate HasBd(blocks: Body, b: nat) { b < |blocks| && blocks[b].bds > 0 }

  predicate AllMapped(blocks: Body, channels: map<nat, nat>) {
    forall b: nat | b < |blocks| && HasBd(blocks, b) :: b in channels
  }

  /** How many of the first `n` blocks have a descriptor and a channel of the given parity. */
  function Count(blocks: Body, channels: map<nat, nat>, n: nat, parity: nat): nat
    requires n <= |blocks| && AllMapped(blocks, channels)
  {
    if n == 0 then 0 else
      var own := if HasBd(blocks, n - 1) && channels[n - 1] % 2 == parity then 1 else 0;
      Count(blocks, channels, n - 1, parity) + own
  }

  function Number(blocks: Body, channels: map<nat, nat>, b: nat): nat
    requires HasBd(blocks, b) && AllMapped(blocks, channels)
  {
    Count(blocks, channels, b, channels[b] % 2) + if channels[b] % 2 == 1 then HALF else 0
  }

  /** Gives every block with a descriptor the next number of its channel's half: from 0 or from 24. */
  method NumberBds(blocks: Body, channels: map<nat, nat>) returns (numbers: map<nat, nat>)
    requires AllMapped(blocks, channels)
    ensures forall b: nat :: b in numbers <==> HasBd(blocks, b)
    ensures forall b <- numbers :: numbers[b] == Number(blocks, channels, b)
  {
    var evenBdNum, oddBdNum := 0, HALF;
    numbers := map[];
    var b := 0;
    while b < |blocks|
      invariant 0 <= b <= |blocks|
      invariant evenBdNum == Count(blocks, channels, b, 0) && oddBdNum == HALF + Count(blocks, channels, b, 1)
      invariant forall c: nat :: c in numbers <==> c < b && HasBd(blocks, c)
      invariant forall c <- numbers :: numbers[c] == Number(blocks, channels, c)
    {
      if HasBd(blocks, b) {
        if channels[b] % 2 == 1 {
          numbers := numbers[b := oddBdNum];
          oddBdNum := oddBdNum + 1;
        } else {
          numbers := numbers[b := evenBdNum];
          evenBdNum := evenBdNum + 1;
        }
      }
      b := b + 1;
    }
  }

  lemma {:induction false} CountGrows(blocks: Body, channels: map<nat, nat>, b: nat, n: nat, parity: nat)
    requires AllMapped(blocks, channels) && b < n <= |blocks|
    ensures Count(blocks, channels, n, parity)
      >= Count(blocks, channels, b, parity) + if HasBd(blocks, b) && channels[b] % 2 == parity then 1 else 0
    decreases n
  {
    if b < n - 1 {
      CountGrows(blocks, channels, b, n - 1, parity);
    }
  }

  /** Every number below the count is given to some block. */
  lemma {:induction false} CountIsReached(blocks: Body, channels: map<nat, nat>, n: nat, parity: nat, k: nat)
    returns (b: nat)
    requires AllMapped(blocks, channels) && n <= |blocks| && k < Count(blocks, channels, n, parity)
    ensures HasBd(blocks, b) && b < n && channels[b] % 2 == parity && Count(blocks, channels, b, parity) == k
    decreases n
  {
    if k < Count(blocks, channels, n - 1, parity) {
      b := CountIsReached(blocks, channels, n - 1, parity, k);
    } else {
      b := n - 1;
    }
  }

  ghost predicate Distinct(blocks: Body, channels: map<nat, nat>)
    requires AllMapped(blocks, channels)
  {
    forall b: nat, c: nat | HasBd(blocks, b) && HasBd(blocks, c) && b != c ::
      Number(blocks, channels, b) != Number(blocks, channels, c)
  }

  /** No two blocks share a number unless the even channels run over into the odd half while it is in use. */
  lemma DistinctIff(blocks: Body, channels: map<nat, nat>)
    requires AllMapped(blocks, channels)
    ensures Distinct(blocks, channels)
      <==> Count(blocks, channels, |blocks|, 0) <= 24 || Count(blocks, channels, |blocks|, 1) == 0
  {
    var n := |blocks|;
    if Count(blocks, channels, n, 0) > HALF && Count(blocks, channels, n, 1) > 0 {
      var b := CountIsReached(blocks, channels, n, 0, HALF);
      var c := CountIsReached(blocks, channels, n, 1, 0);
      assert Number(blocks, channels, b) == Number(blocks, channels, c);
    } else {
      forall b: nat, c: nat | HasBd(blocks, b) && HasBd(blocks, c) && b < c
        ensures Number(blocks, channels, b) != Number(blocks, channels, c)
      {
        CountGrows(blocks, channels, b, c, channels[b] % 2);
        CountGrows(blocks, channels, b, n, channels[b] % 2);
        CountGrows(blocks, channels, c, n, channels[c] % 2);
      }
    }
  }

  /** The blocks with a descriptor before block `n` whose channel has the given parity. */
  ghost function OfParity(blocks: Body, channels: map<nat, nat>, n: nat, parity: nat): set<nat>
    requires n <= |blocks| && AllMapped(blocks, channels)
  {
    set b: nat | b < n && HasBd(blocks, b) && channels[b] % 2 == parity
  }

  lemma {:induction false} CountIsSize(blocks: Body, channels: map<nat, nat>, n: nat, parity: nat)
    requires n <= |blocks| && AllMapped(blocks, channels)
    ensures Count(blocks, channels, n, parity) == |OfParity(blocks, channels, n, parity)|
  {
    if n > 0 {
      CountIsSize(blocks, channels, n - 1, parity);
      OfParityNext(blocks, channels, n - 1, parity);
      hide OfParity;
    } else {
      assert OfParity(blocks, channels, n, parity) == {};
    }
  }

  lemma OfParityNext(blocks: Body, channels: map<nat, nat>, n: nat, parity: nat)
    requires n < |blocks| && AllMapped(blocks, channels)
    ensures n !in OfParity(blocks, channels, n, parity)
    ensures OfParity(blocks, channels, n + 1, parity) == OfParity(blocks, channels, n, parity)
      + if HasBd(blocks, n) && channels[n] % 2 == parity then {n} else {}
  {}

  /** The number of a block is how many blocks before it share the parity of its channel, from 24 on if that is odd. */
  lemma NumberIsRank(blocks: Body, channels: map<nat, nat>, b: nat)
    requires HasBd(blocks, b) && AllMapped(blocks, channels)
    ensures channels[b] % 2 == 0 ==> Number(blocks, channels, b) == |OfParity(blocks, channels, b, 0)|
    ensures channels[b] % 2 == 1 ==> Number(blocks, channels, b) == 24 + |OfParity(blocks, channels, b, 1)|
  {
    CountIsSize(blocks, channels, b, channels[b] % 2);
  }

  /** The half a number lies in. */
  function Half(number: nat): nat { if number < 24 then 0 else 1 }

  /** With at most 24 even descriptors, each block's half is the parity of its channel; with at most 24 odd ones, the
      numbers stay below 48. */
  lemma HalfIsParity(blocks: Body, channels: map<nat, nat>, b: nat)
    requires AllMapped(blocks, channels) && HasBd(blocks, b)
    requires Count(blocks, channels, |blocks|, 0) <= 24
    ensures Half(Number(blocks, channels, b)) == channels[b] % 2
    ensures Count(blocks, channels, |blocks|, 1) <= 24 ==> Number(blocks, channels, b) < 48
  {
    CountGrows(blocks, channels, b, |blocks|, channels[b] % 2);
  }

  // ----- channels and their descriptors

  /** Every descriptor a channel runs into lies in the channel's own half. */
  ghost predicate HalvesMatch(blocks: Body, channels: map<nat, nat>)
    requires AllMapped(blocks, channels)
  {
    forall b: nat, s: nat | HasBd(blocks, b) && Reaches(blocks, s, b) ::
      Half(Number(blocks, channels, b)) == Channel(blocks, s) % 2
  }

  ghost predicate NoMixedChains(blocks: Body) {
    forall b: nat, s: nat, s': nat | HasBd(blocks, b) && Reaches(blocks, s, b) && Reaches(blocks, s', b) ::
      Channel(blocks, s) % 2 == Channel(blocks, s') % 2
  }

  /** The hardware's rule that a channel only uses its own half is kept exactly when no descriptor is shared between
      an even and an odd channel. */
  lemma HalvesMatchIff(blocks: Body, channels: map<nat, nat>)
    requires AllMapped(blocks, channels) && Owned(blocks, |blocks|, channels)
    requires Count(blocks, channels, |blocks|, 0) <= 24
    ensures HalvesMatch(blocks, channels) <==> NoMixedChains(blocks)
  {
    hide Reaches, Number, Half;
    forall b: nat | HasBd(blocks, b)
      ensures Half(Number(blocks, channels, b)) == channels[b] % 2
      ensures exists s: nat :: Reaches(blocks, s, b) && channels[b] == Channel(blocks, s)
    {
      HalfIsParity(blocks, channels, b);
      var s: nat :| Owner(blocks, |blocks|, b, s) && channels[b] == Channel(blocks, s);
    }
  }

  ghost predicate AllReached(blocks: Body) {
    forall b: nat | HasBd(blocks, b) :: exists s: nat :: Reaches(blocks, s, b)
  }

  /** Channels, then numbers; a failing assertion between them is the missing result. It fails exactly when no start
      reaches some descriptor. With at most 24 even descriptors, every number lies in the half of a channel that reaches
      its descriptor. */
  method AssignBds(blocks: Body) returns (numbers: Option<map<nat, nat>>, ghost channels: map<nat, nat>)
    ensures numbers.Some? <==> AllReached(blocks)
    ensures Owned(blocks, |blocks|, channels) && (numbers.Some? ==> AllMapped(blocks, channels))
    ensures numbers.Some? ==> forall b: nat :: b in numbers.value <==> HasBd(blocks, b)
    ensures numbers.Some? ==> forall b <- numbers.value :: numbers.value[b] == Number(blocks, channels, b)
    ensures numbers.Some? && Count(blocks, channels, |blocks|, 0) <= 24 ==> forall b <- numbers.value ::
      exists s: nat :: Reaches(blocks, s, b) && Half(numbers.value[b]) == Channel(blocks, s) % 2
  {
    hide Reaches, Number, Half, Owner;
    var mapped := MapChannels(blocks);
    channels := mapped;
    AllMappedIff(blocks, channels);
    if !AllMapped(blocks, mapped) {
      return None, channels;
    }
    var n := NumberBds(blocks, mapped);
    numbers := Some(n);
    if Count(blocks, channels, |blocks|, 0) <= 24 {
      forall b | b in n ensures exists s: nat :: Reaches(blocks, s, b) && Half(n[b]) == Channel(blocks, s) % 2 {
        HalfIsParity(blocks, channels, b);
        HalfOfOwner(blocks, channels, b);
      }
    }
  }

  lemma HalfOfOwner(blocks: Body, channels: map<nat, nat>, b: nat)
    requires Owned(blocks, |blocks|, channels) && b in channels
    ensures exists s: nat :: Reaches(blocks, s, b) && channels[b] == Channel(blocks, s)
  {
    hide Reaches;
    var s: nat :| Owner(blocks, |blocks|, b, s) && channels[b] == Channel(blocks, s);
  }

  lemma AllMappedIff(blocks: Body, channels: map<nat, nat>)
    requires forall b: nat :: b in channels <==> exists s: nat :: Reaches(blocks, s, b)
    ensures AllMapped(blocks, channels) <==> AllReached(blocks)
  {
    hide Reaches;
  }

  /** Channel 0 and then channel 1 start at block 2, which goes on to block 3 and back. */
  function Shared(): Body {
    [Block(0, Start(0, 2, 1)), Block(0, Start(1, 2, 4)), Block(1, Next(3)), Block(1, Next(2)), Block(0, End)]
  }

  /** An odd channel that starts inside the chain of an even one takes over only the block it starts at. */
  lemma SharedChainIsSplit(channels: map<nat, nat>)
    requires Owned(Shared(), 5, channels) && channels.Keys == {0, 1, 2, 3}
    ensures channels[2] == 1 && channels[3] == 0
    ensures AllMapped(Shared(), channels) && Half(Number(Shared(), channels, 2)) != Half(Number(Shared(), channels, 3))
  {
    SharedOwners(channels);
    hide Owned, Reaches;
    SharedCounts(channels);
  }

  lemma SharedCounts(channels: map<nat, nat>)
    requires channels.Keys == {0, 1, 2, 3} && channels[2] == 1 && channels[3] == 0
    ensures AllMapped(Shared(), channels)
    ensures Count(Shared(), channels, 2, 1) == 0 && Count(Shared(), channels, 3, 0) == 0
  {
    var s := Shared();
    assert !HasBd(s, 0) && !HasBd(s, 1);
    assert Count(s, channels, 0, 0) == 0 && Count(s, channels, 0, 1) == 0;
    assert Count(s, channels, 1, 0) == 0 && Count(s, channels, 1, 1) == 0;
    assert Count(s, channels, 2, 0) == 0;
  }

  lemma SharedOwners(channels: map<nat, nat>)
    requires Owned(Shared(), 5, channels) && channels.Keys == {0, 1, 2, 3}
    ensures channels[2] == 1 && channels[3] == 0
  {
    var s := Shared();
    ThreeIsReached();
    SharedStarts();
    hide Reaches, Touches, Shared, Channel, IsStart;
    var o2: nat :| Owner(s, 5, 2, o2) && channels[2] == Channel(s, o2);
    var o3: nat :| Owner(s, 5, 3, o3) && channels[3] == Channel(s, o3);
  }

  lemma ThreeIsReached()
    ensures Reaches(Shared(), 0, 3)
  {
    var p := [0, 2, 3];
    assert Path(Shared(), 0, p) && p[|p| - 1] == 3;
  }

  lemma SharedStarts()
    ensures forall s: nat, b: nat | Reaches(Shared(), s, b) :: s == 0 || s == 1
    ensures Touches(Shared(), 1, 2) && !Touches(Shared(), 1, 3) && !Touches(Shared(), 0, 3)
    ensures Channel(Shared(), 0) == 0 && Channel(Shared(), 1) == 1
  {
    forall s: nat, b: nat | Reaches(Shared(), s, b) ensures s == 0 || s == 1 {
      hide Path;
      assert IsStart(Shared(), s);
    }
  }
}
