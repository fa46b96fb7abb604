/** Collecting the fragments of one navigation message until an issue of data is complete. */
module NavCollector {
  import opened NavPlan

  /** A fragment as received: its mask bits and its issue of data. */
  datatype Piece = Piece(bits: Mask, issue: int)

  datatype State = State(required: Mask, received: Mask, issue: int, known: bool)

  datatype Step = Step(state: State, ok: bool, complete: bool)

  predicate Accepted(required: Mask, p: Piece) { required != {} && p.bits != {} && p.bits * required != {} }

  function Blank(required: Mask): State { State(required, {}, 0, false) }

  function Ingested(s: State, p: Piece): Step {
    if !Accepted(s.required, p) then Step(s, false, false)
    else
      var before := if s.known && s.issue == p.issue then s.received else {};
      var after := before + p.bits;
      Step(State(s.required, after, p.issue, true), true, after * s.required == s.required)
  }

  class Collector {
    var required: Mask
    var received: Mask
    var issue: int
    var known: bool

    function View(): State
      reads this
    {
      State(required, received, issue, known)
    }

    constructor (required: Mask)
      ensures View() == Blank(required)
    {
      this.required, received, issue, known := required, {}, 0, false;
    }

    method Reset(required: Mask)
      modifies this
      ensures View() == Blank(required)
    {
      this.required, received, issue, known := required, {}, 0, false;
    }

    method Ingest(p: Piece) returns (ok: bool, complete: bool)
      modifies this
      ensures Step(View(), ok, complete) == Ingested(old(View()), p)
    {
      if required == {} || p.bits == {} || p.bits * required == {} {
        return false, false;
      }
      if !known || issue != p.issue {
        received, issue, known := {}, p.issue, true;
      }
      received := received + p.bits;
      ok, complete := true, received * required == required;
    }
  }

  // ---------- What has been collected ----------

  function Run(required: Mask, pieces: seq<Piece>): State
    decreases |pieces|
  {
    if |pieces| == 0 then Blank(required)
    else var last := |pieces| - 1; Ingested(Run(required, pieces[..last]), pieces[last]).state
  }

  /** From piece k on, every accepted piece has the issue of data of piece k. */
  predicate SameIssueFrom(required: Mask, pieces: seq<Piece>, k: nat)
    requires k < |pieces|
  {
    forall j :: k <= j < |pieces| && Accepted(required, pieces[j]) ==> pieces[j].issue == pieces[k].issue
  }

  /** A piece with this bit was accepted, and no other issue of data since. */
  predicate Holds(required: Mask, pieces: seq<Piece>, bit: nat) {
    exists k :: 0 <= k < |pieces| && Accepted(required, pieces[k]) && bit in pieces[k].bits
                && SameIssueFrom(required, pieces, k)
  }

  /** A rejected piece changes what counts for no bit. */
  lemma RejectedKeeps(required: Mask, pieces: seq<Piece>, k: nat, last: nat)
    requires |pieces| == last + 1 && k < last && !Accepted(required, pieces[last])
    ensures SameIssueFrom(required, pieces, k) <==> SameIssueFrom(required, pieces[..last], k)
  {
    if SameIssueFrom(required, pieces, k) {
      assert forall j :: 0 <= j < last ==> pieces[..last][j] == pieces[j];
    }
    if SameIssueFrom(required, pieces[..last], k) {
      forall j | k <= j < |pieces| && Accepted(required, pieces[j])
        ensures pieces[j].issue == pieces[k].issue
      {
        assert pieces[..last][j] == pieces[j];
      }
    }
  }

  lemma AcceptedKeeps(required: Mask, pieces: seq<Piece>, k: nat, last: nat)
    requires |pieces| == last + 1 && k < last && Accepted(required, pieces[last])
    ensures SameIssueFrom(required, pieces, k) <==>
            SameIssueFrom(required, pieces[..last], k) && pieces[last].issue == pieces[k].issue
  {
    if SameIssueFrom(required, pieces, k) {
      assert forall j :: 0 <= j < last ==> pieces[..last][j] == pieces[j];
    }
    if SameIssueFrom(required, pieces[..last], k) && pieces[last].issue == pieces[k].issue {
      forall j | k <= j < |pieces| && Accepted(required, pieces[j])
        ensures pieces[j].issue == pieces[k].issue
      {
        if j < last {
          assert pieces[..last][j] == pieces[j];
        }
      }
    }
  }

  lemma {:induction false} RunRequired(required: Mask, pieces: seq<Piece>)
    ensures Run(required, pieces).required == required
    decreases |pieces|
  {
    if |pieces| > 0 {
      RunRequired(required, pieces[..|pieces| - 1]);
    }
  }

  /** A piece whose issue of data has held since has the issue that is being collected. */
  lemma IssueIsCurrent(required: Mask, pieces: seq<Piece>, k: nat)
    requires k < |pieces| && Accepted(required, pieces[k]) && SameIssueFrom(required, pieces, k)
    ensures Run(required, pieces).known && Run(required, pieces).issue == pieces[k].issue
    decreases |pieces|
  {
    var last := |pieces| - 1;
    RunRequired(required, pieces[..last]);
    if k < last && !Accepted(required, pieces[last]) {
      RejectedKeeps(required, pieces, k, last);
      IssueIsCurrent(required, pieces[..last], k);
    }
  }

  /** The bits held are those of the accepted pieces since the issue of data last changed: issues are never mixed. */
  lemma {:induction false} BitsOfOneIssue(required: Mask, pieces: seq<Piece>, bit: nat)
    ensures bit in Run(required, pieces).received <==> Holds(required, pieces, bit)
    decreases |pieces|
  {
    if |pieces| > 0 {
      var last := |pieces| - 1;
      var front := pieces[..last];
      var before := Run(required, front);
      BitsOfOneIssue(required, front, bit);
      RunRequired(required, front);
      if bit in Run(required, pieces).received {
        if Accepted(required, pieces[last]) && bit in pieces[last].bits {
          assert SameIssueFrom(required, pieces, last);
        } else {
          var k :| 0 <= k < |front| && Accepted(required, front[k]) && bit in front[k].bits
                   && SameIssueFrom(required, front, k);
          IssueIsCurrent(required, front, k);
          KeepsFrom(required, pieces, k, last);
        }
      }
      if Holds(required, pieces, bit) {
        var k :| 0 <= k < |pieces| && Accepted(required, pieces[k]) && bit in pieces[k].bits
                 && SameIssueFrom(required, pieces, k);
        if k < last {
          KeepsFrom(required, pieces, k, last);
          assert front[k] == pieces[k] && SameIssueFrom(required, front, k);
          IssueIsCurrent(required, front, k);
        }
      }
    }
  }

  lemma KeepsFrom(required: Mask, pieces: seq<Piece>, k: nat, last: nat)
    requires |pieces| == last + 1 && k < last
    ensures SameIssueFrom(required, pieces, k) <==>
            SameIssueFrom(required, pieces[..last], k)
            && (Accepted(required, pieces[last]) ==> pieces[last].issue == pieces[k].issue)
  {
    if Accepted(required, pieces[last]) {
      AcceptedKeeps(required, pieces, k, last);
    } else {
      RejectedKeeps(required, pieces, k, last);
    }
  }

  /** The collector reports completeness exactly when every required bit has come with the present issue of data. */
  lemma CompleteIffAllHeld(required: Mask, pieces: seq<Piece>)
    requires |pieces| > 0 && Accepted(required, pieces[|pieces| - 1])
    ensures Ingested(Run(required, pieces[..|pieces| - 1]), pieces[|pieces| - 1]).ok
    ensures Ingested(Run(required, pieces[..|pieces| - 1]), pieces[|pieces| - 1]).complete <==>
            forall bit :: bit in required ==> Holds(required, pieces, bit)
  {
    RunRequired(required, pieces[..|pieces| - 1]);
    var received := Run(required, pieces).received;
    forall bit | bit in required
      ensures bit in received <==> Holds(required, pieces, bit)
    {
      BitsOfOneIssue(required, pieces, bit);
    }
    assert received * required == required <==> required <= received;
  }
}
