/**
 Choosing a place (chat/graph.py, `clarify`): which candidates are offered, and what an answer makes of
 the request.
 */
module ChatChoices {
  import opened Common
  import opened ChatGraph

  // ------------------------------------------------------------------ what is offered

  predicate Begins(w: Reader, c: Candidate, field: string) {
    w.startsWith(c.name, w.normal(field))
  }

  lemma {:induction false} NamedIs(w: Reader, candidates: seq<Candidate>, typed: string)
    ensures forall c :: c in Named(w, candidates, typed) <==> c in candidates && w.startsWith(c.name, typed)
  {
    if candidates != [] {
      NamedIs(w, candidates[1..], typed);
      assert forall c :: c in candidates <==> c == candidates[0] || c in candidates[1..];
    }
  }

  /** Places of one list at which the items of another stand, in order. */
  predicate Picks(at: seq<nat>, from: seq<Candidate>, items: seq<Candidate>) {
    && |at| == |items|
    && (forall k :: 0 <= k < |at| ==> at[k] < |from| && from[at[k]] == items[k])
    && (forall j, k :: 0 <= j < k < |at| ==> at[j] < at[k])
  }

  function Later(at: seq<nat>): (r: seq<nat>)
    ensures |r| == |at| && forall k :: 0 <= k < |at| ==> r[k] == at[k] + 1
  {
    seq(|at|, k requires 0 <= k < |at| => at[k] + 1)
  }

  lemma PicksBehind(at: seq<nat>, from: seq<Candidate>, items: seq<Candidate>, first: Candidate)
    requires Picks(at, from, items)
    ensures Picks(Later(at), [first] + from, items)
    ensures Picks([0] + Later(at), [first] + from, [first] + items)
  {
    var on, all := Later(at), [first] + from;
    assert forall k :: 0 <= k < |on| ==> all[on[k]] == from[at[k]];
  }

  lemma {:induction false} NamedInOrder(w: Reader, candidates: seq<Candidate>, typed: string) returns (at: seq<nat>)
    ensures Picks(at, candidates, Named(w, candidates, typed))
  {
    if candidates == [] {
      at := [];
    } else {
      at := NamedInOrder(w, candidates[1..], typed);
      PicksBehind(at, candidates[1..], Named(w, candidates[1..], typed), candidates[0]);
      hide Picks, Later;
      assert [candidates[0]] + candidates[1..] == candidates;
      assert [] + Named(w, candidates[1..], typed) == Named(w, candidates[1..], typed);
      at := if w.startsWith(candidates[0].name, typed) then [0] + Later(at) else Later(at);
    }
  }

  lemma EmptyIs(candidates: seq<Candidate>)
    ensures candidates == [] <==> forall c :: c !in candidates
  {
    if candidates != [] {
      assert candidates[0] in candidates;
    }
  }

  /**
   Main result: of the first five candidates those are offered whose name begins as the place was typed;
   all five when none does, or nothing was typed.
   */
  lemma OfferedAre(w: Reader, group: Group)
    ensures var five := if |group.candidates| <= 5 then group.candidates else group.candidates[..5];
            var offered := Offered(w, group);
            && (forall c :: c in offered ==> c in five)
            && (w.normal(group.field) != "" && (exists c :: c in five && Begins(w, c, group.field)) ==>
                forall c :: c in offered <==> c in five && Begins(w, c, group.field))
            && (w.normal(group.field) == "" || (forall c :: c in five ==> !Begins(w, c, group.field)) ==> offered == five)
  {
    var five := if |group.candidates| <= 5 then group.candidates else group.candidates[..5];
    var typed := w.normal(group.field);
    NamedIs(w, five, typed);
    if typed != "" && exists c :: c in five && Begins(w, c, group.field) {
      var c :| c in five && Begins(w, c, group.field);
      assert c in Named(w, five, typed);
    } else if forall c :: c in five ==> !Begins(w, c, group.field) {
      EmptyIs(Named(w, five, typed));
    }
  }

  /** And in the order in which they came, so an answer by number means the number shown. */
  lemma OfferedInOrder(w: Reader, group: Group) returns (at: seq<nat>)
    ensures Picks(at, group.candidates, Offered(w, group))
  {
    var five := if |group.candidates| <= 5 then group.candidates else group.candidates[..5];
    var named := Named(w, five, w.normal(group.field));
    if Offered(w, group) == five {
      at := seq(|five|, k requires 0 <= k < |five| => k);
    } else {
      at := NamedInOrder(w, five, w.normal(group.field));
    }
  }

  // ------------------------------------------------------------------ what a choice does

  /** A place typed as the field is now at the candidate's position; any other is as it was. */
  predicate Becomes(w: Reader, before: Place, after: Place, field: string, chosen: Candidate) {
    if before.Words? && w.normal(before.text) == w.normal(field) then after == Position(chosen.lon, chosen.lat)
    else after == before
  }

  predicate OptionBecomes(w: Reader, before: Option<Place>, after: Option<Place>, field: string, chosen: Candidate) {
    (before.Some? <==> after.Some?) && (before.Some? ==> Becomes(w, before.value, after.value, field, chosen))
  }

  /** The request with the candidate for every place typed as the field, and all else as it was. */
  predicate ChosenIn(w: Reader, before: Request, after: Request, field: string, chosen: Candidate) {
    && OptionBecomes(w, before.origin, after.origin, field, chosen)
    && OptionBecomes(w, before.destination, after.destination, field, chosen)
    && |Stops(after)| == |Stops(before)|
    && (forall i :: 0 <= i < |Stops(before)| ==> Becomes(w, Stops(before)[i], Stops(after)[i], field, chosen))
    && after.constraints == before.constraints && after.others == before.others
  }

  lemma ReplacedIsChosen(w: Reader, request: Request, field: string, chosen: Candidate)
    ensures ChosenIn(w, request, ReplacePlace(w, request, field, chosen), field, chosen)
  {
    SwapAllCounts(w, Stops(request), field, chosen);
  }

  /** Every group is as it was, but that one of them is gone. */
  predicate OneGone(before: seq<Group>, after: seq<Group>, i: nat) {
    && i < |before| && |after| + 1 == |before|
    && (forall j :: 0 <= j < i ==> after[j] == before[j])
    && (forall j :: i <= j < |after| ==> after[j] == before[j + 1])
  }

  /** The group that is asked about: the first with candidates. */
  predicate IsOpen(groups: seq<Group>, i: nat) {
    i < |groups| && groups[i].candidates != [] && forall j :: 0 <= j < i ==> groups[j].candidates == []
  }

  lemma {:induction false} FirstIsOpen(groups: seq<Group>)
    requires FirstToChoose(groups).Some?
    ensures IsOpen(groups, FirstToChoose(groups).value)
  {
    if groups[0].candidates == [] {
      FirstIsOpen(groups[1..]);
      var i := FirstToChoose(groups[1..]).value;
      forall j | 0 <= j < i + 1 ensures groups[j].candidates == [] {
        assert j > 0 ==> groups[j] == groups[1..][j - 1];
      }
    }
  }

  /** The conversation plans next the waiting request with this candidate in it, and asks no more about this group. */
  predicate GoesOnWith(w: Reader, s: State, d: Config, i: nat, chosen: Candidate)
    requires i < |s.clarification|
  {
    && d.node == PlanRoute && !d.paused && d.state.pendingRequest.Some?
    && ChosenIn(w, WaitingRequest(s), d.state.pendingRequest.value, s.clarification[i].field, chosen)
    && OneGone(s.clarification, d.state.clarification, i)
    && RemembersAll(s, d.state)
  }

  lemma ResolvingGoesOn(w: Reader, s: State, i: nat, chosen: Candidate)
    requires i < |s.clarification|
    ensures GoesOnWith(w, s, Config(AfterClarify(ResolvedBy(w, s, i, chosen)), ResolvedBy(w, s, i, chosen), false), i, chosen)
  {
    hide ReplacePlace, WaitingRequest;
    ReplacedIsChosen(w, WaitingRequest(s), s.clarification[i].field, chosen);
    hide ChosenIn;
    var t := ResolvedBy(w, s, i, chosen);
    assert t.clarification == s.clarification[..i] + s.clarification[i + 1..];
  }

  /**
   Main result: an answer to the open question puts the candidate it names, of those offered, in every
   place typed as that question's field. An answer that names nobody changes no request: the question
   stays open with all its groups, or the message starts something else.
   */
  lemma AnswerChooses(w: Reader, c: Config, text: string, followup: Option<Intent>) returns (i: nat)
    requires Invariant(c) && c.paused && Step(w, c, Reply(text, followup)).Some?
    ensures IsOpen(c.state.clarification, i)
    ensures var d := Step(w, c, Reply(text, followup)).value;
            var offered := Offered(w, c.state.clarification[i]);
            var choice := w.choose(text, offered);
            if choice.Some? && choice.value < |offered| then GoesOnWith(w, c.state, d, i, offered[choice.value])
            else
              && RemembersAll(c.state, d.state) && d.state.pendingRequest == c.state.pendingRequest && !d.paused
              && (if followup in {Some(ResetIntent), Some(HelpIntent), Some(PlanIntent)} then
                    d.node == Router && d.state.intent == followup.value && d.state.clarification == []
                  else d.node == Clarify && d.state.clarification == c.state.clarification)
  {
    FirstIsOpen(c.state.clarification);
    FirstToChooseIs(c.state.clarification);
    i := FirstToChoose(c.state.clarification).value;
    var offered := Offered(w, c.state.clarification[i]);
    var choice := w.choose(text, offered);
    if choice.Some? && choice.value < |offered| {
      ResolvingGoesOn(w, c.state, i, offered[choice.value]);
      hide GoesOnWith, ResolvedBy;
    }
    hide Offered;
  }

  /** Where all that is offered is one place nobody is asked, and its first candidate is taken. */
  lemma OnePlaceIsTaken(w: Reader, c: Config) returns (i: nat)
    requires Invariant(c) && c.node == Clarify && !c.paused && FirstToChoose(c.state.clarification).Some?
    ensures IsOpen(c.state.clarification, i)
    ensures var offered := Offered(w, c.state.clarification[i]);
            && offered != []
            && Step(w, c, Ran).Some?
            && if w.samePlace(offered) then GoesOnWith(w, c.state, Step(w, c, Ran).value, i, offered[0])
               else Step(w, c, Ran).value == Config(Clarify, c.state, true)
  {
    FirstIsOpen(c.state.clarification);
    FirstToChooseIs(c.state.clarification);
    i := FirstToChoose(c.state.clarification).value;
    ResolvingGoesOn(w, c.state, i, Offered(w, c.state.clarification[i])[0]);
    hide GoesOnWith, ResolvedBy, Offered;
  }
}
