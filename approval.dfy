/** The review state machine shared by `processProgramPayouts`
    (program-payouts.js) and `processGrantApprovals` (index.js): a cursor
    walks the candidates; each command approves or rejects the current one,
    approves or rejects all that remain, or shows help. The program-payout
    variant first rejects, without a prompt, every candidate its `skip`
    test flags; the grant variant flags none. The prompt is the sequence
    `input` of commands still to be typed. */
module Approval {

  /** The canonical commands: `y`/`yes`, `n`/`no`, `a`/`all`, `q`/`quit`
      and `?`/`help`. The prompt's validation lets nothing else through. */
  datatype Command = Approve | Reject | ApproveRest | RejectRest | Help

  datatype Review<C> = Review(index: nat, approved: seq<C>, rejected: seq<C>, input: seq<Command>)

  /** `xs` split into `a` and `r`: every element of `xs` goes to exactly one
      of them, and each keeps the relative order it has in `xs`. */
  ghost predicate Interleaving<C>(xs: seq<C>, a: seq<C>, r: seq<C>)
    decreases |xs|
  {
    if xs == [] then a == [] && r == []
    else
      var x := xs[|xs| - 1];
      (a != [] && a[|a| - 1] == x && Interleaving(xs[..|xs| - 1], a[..|a| - 1], r)) ||
      (r != [] && r[|r| - 1] == x && Interleaving(xs[..|xs| - 1], a, r[..|r| - 1]))
  }

  lemma {:induction false} InterleavingApproveAll<C>(xs: seq<C>, a: seq<C>, r: seq<C>, ys: seq<C>)
    requires Interleaving(xs, a, r)
    ensures Interleaving(xs + ys, a + ys, r)
    decreases |ys|
  {
    if ys == [] {
      assert xs + ys == xs && a + ys == a;
    } else {
      var ys' := ys[..|ys| - 1];
      InterleavingApproveAll(xs, a, r, ys');
      assert (xs + ys)[..|xs + ys| - 1] == xs + ys';
      assert (a + ys)[..|a + ys| - 1] == a + ys';
    }
  }

  lemma {:induction false} InterleavingRejectAll<C>(xs: seq<C>, a: seq<C>, r: seq<C>, ys: seq<C>)
    requires Interleaving(xs, a, r)
    ensures Interleaving(xs + ys, a, r + ys)
    decreases |ys|
  {
    if ys == [] {
      assert xs + ys == xs && r + ys == r;
    } else {
      var ys' := ys[..|ys| - 1];
      InterleavingRejectAll(xs, a, r, ys');
      assert (xs + ys)[..|xs + ys| - 1] == xs + ys';
      assert (r + ys)[..|r + ys| - 1] == r + ys';
    }
  }

  /** A split accounts for every element exactly once. */
  lemma {:induction false} InterleavingCounts<C>(xs: seq<C>, a: seq<C>, r: seq<C>)
    requires Interleaving(xs, a, r)
    ensures |a| + |r| == |xs|
    ensures multiset(a) + multiset(r) == multiset(xs)
    decreases |xs|
  {
    if xs != [] {
      var xs' := xs[..|xs| - 1];
      assert xs == xs' + [xs[|xs| - 1]];
      if a != [] && a[|a| - 1] == xs[|xs| - 1] && Interleaving(xs', a[..|a| - 1], r) {
        InterleavingCounts(xs', a[..|a| - 1], r);
        assert a == a[..|a| - 1] + [a[|a| - 1]];
      } else {
        InterleavingCounts(xs', a, r[..|r| - 1]);
        assert r == r[..|r| - 1] + [r[|r| - 1]];
      }
    }
  }

  /** The effect of one command on the candidate at the cursor. */
  function Apply<C>(cands: seq<C>, s: Review<C>, cmd: Command): (t: Review<C>)
    requires s.index < |cands|
    ensures t.input == s.input && s.index <= t.index <= |cands|
    ensures cmd != Help ==> t.index > s.index
    ensures cmd == Help ==> t == s
    ensures cmd == Approve ==> t == s.(index := s.index + 1, approved := s.approved + [cands[s.index]])
    ensures cmd == Reject ==> t == s.(index := s.index + 1, rejected := s.rejected + [cands[s.index]])
    ensures cmd == ApproveRest ==> t == s.(index := |cands|, approved := s.approved + cands[s.index..])
    ensures cmd == RejectRest ==> t == s.(index := |cands|, rejected := s.rejected + cands[s.index..])
    ensures Interleaving(cands[..s.index], s.approved, s.rejected) ==>
      Interleaving(cands[..t.index], t.approved, t.rejected)
  {
    var c := cands[s.index];
    assert cands[..s.index + 1] == cands[..s.index] + [c];
    assert cands[..|cands|] == cands[..s.index] + cands[s.index..];
    match cmd
    case Approve =>
      assert Interleaving(cands[..s.index], s.approved, s.rejected) ==>
        Interleaving(cands[..s.index] + [c], s.approved + [c], s.rejected) by {
        if Interleaving(cands[..s.index], s.approved, s.rejected) {
          InterleavingApproveAll(cands[..s.index], s.approved, s.rejected, [c]);
        }
      }
      s.(index := s.index + 1, approved := s.approved + [c])
    case Reject =>
      assert Interleaving(cands[..s.index], s.approved, s.rejected) ==>
        Interleaving(cands[..s.index] + [c], s.approved, s.rejected + [c]) by {
        if Interleaving(cands[..s.index], s.approved, s.rejected) {
          InterleavingRejectAll(cands[..s.index], s.approved, s.rejected, [c]);
        }
      }
      s.(index := s.index + 1, rejected := s.rejected + [c])
    case ApproveRest =>
      assert Interleaving(cands[..s.index], s.approved, s.rejected) ==>
        Interleaving(cands[..s.index] + cands[s.index..], s.approved + cands[s.index..], s.rejected) by {
        if Interleaving(cands[..s.index], s.approved, s.rejected) {
          InterleavingApproveAll(cands[..s.index], s.approved, s.rejected, cands[s.index..]);
        }
      }
      s.(index := |cands|, approved := s.approved + cands[s.index..])
    case RejectRest =>
      assert Interleaving(cands[..s.index], s.approved, s.rejected) ==>
        Interleaving(cands[..s.index] + cands[s.index..], s.approved, s.rejected + cands[s.index..]) by {
        if Interleaving(cands[..s.index], s.approved, s.rejected) {
          InterleavingRejectAll(cands[..s.index], s.approved, s.rejected, cands[s.index..]);
        }
      }
      s.(index := |cands|, rejected := s.rejected + cands[s.index..])
    case Help => s
  }

  /** One turn of the review loop: a flagged candidate is rejected without
      a prompt and without consuming input; any other candidate consumes
      one command. */
  function Step<C>(cands: seq<C>, skip: C -> bool, s: Review<C>): (t: Review<C>)
    requires s.index < |cands|
    requires skip(cands[s.index]) || s.input != []
    ensures skip(cands[s.index]) ==>
      t == s.(index := s.index + 1, rejected := s.rejected + [cands[s.index]])
    ensures !skip(cands[s.index]) ==> t.input == s.input[1..]
    ensures t.index <= |cands|
    ensures Interleaving(cands[..s.index], s.approved, s.rejected) ==>
      Interleaving(cands[..t.index], t.approved, t.rejected)
  {
    if skip(cands[s.index]) then
      Apply(cands, s, Reject)
    else
      Apply(cands, s, s.input[0]).(input := s.input[1..])
  }

  /** The loop run to its end: every candidate is decided, or the input
      ran out at a candidate that needs a prompt. The split of the decided
      prefix into approved and rejected is kept throughout. */
  function Run<C>(cands: seq<C>, skip: C -> bool, s: Review<C>): (t: Review<C>)
    requires s.index <= |cands|
    ensures s.index <= t.index <= |cands|
    ensures t.index == |cands| || (t.input == [] && !skip(cands[t.index]))
    ensures Interleaving(cands[..s.index], s.approved, s.rejected) ==>
      Interleaving(cands[..t.index], t.approved, t.rejected)
    decreases |s.input|, |cands| - s.index
  {
    if s.index == |cands| || (!skip(cands[s.index]) && s.input == []) then s
    else Run(cands, skip, Step(cands, skip, s))
  }

  /** `for (let i = currentIndex; i < cands.length; i++) list.push(cands[i])`:
      the inner loop of the approve-all and reject-all commands. */
  method PushRemaining<C>(list: seq<C>, cands: seq<C>, from: nat) returns (result: seq<C>)
    requires from <= |cands|
    ensures result == list + cands[from..]
  {
    result := list;
    for i := from to |cands|
      invariant result == list + cands[from..i]
    {
      result := result + [cands[i]];
    }
    assert cands[from..|cands|] == cands[from..];
  }

  /** A turn of the loop does not change where the run ends. */
  lemma RunStep<C>(cands: seq<C>, skip: C -> bool, s: Review<C>)
    requires s.index < |cands|
    requires skip(cands[s.index]) || s.input != []
    ensures Run(cands, skip, s) == Run(cands, skip, Step(cands, skip, s))
  {
  }

  /** The review of `cands` from the start, with the operator typing
      `input`. */
  function ReviewAll<C>(cands: seq<C>, skip: C -> bool, input: seq<Command>): Review<C>
  {
    Run(cands, skip, Review(0, [], [], input))
  }

  /** A finished review puts every candidate in exactly one of the two
      lists, each in the original order; an unfinished one stopped only
      because the input ran out, and has split the candidates before the
      cursor. */
  lemma ReviewPartitions<C>(cands: seq<C>, skip: C -> bool, input: seq<Command>)
    ensures var t := ReviewAll(cands, skip, input);
      Interleaving(cands[..t.index], t.approved, t.rejected) &&
      (t.index < |cands| ==> t.input == [] && !skip(cands[t.index])) &&
      (t.index == |cands| ==>
        Interleaving(cands, t.approved, t.rejected) &&
        |t.approved| + |t.rejected| == |cands| &&
        multiset(t.approved) + multiset(t.rejected) == multiset(cands))
  {
    var t := ReviewAll(cands, skip, input);
    assert cands[..0] == [];
    assert Interleaving(cands[..0], [], []);
    if t.index == |cands| {
      assert cands[..t.index] == cands;
      InterleavingCounts(cands, t.approved, t.rejected);
    }
  }
}
