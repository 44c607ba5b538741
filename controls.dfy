/**
 * The activity-control session (handlers/admin/controls.py, and the older
 * copy in handlers/admin_private.py): the operator types the names of the
 * players who were active, reviews the list, may drop entries by their index,
 * and finally every other eligible player gets the increment rule and every
 * selected one the clamped decrement rule.
 *
 * Each handler is a method on the conversation state, proved equal to a step
 * function on the state's value; the properties of the session are stated
 * about the step functions.
 */
module Controls {
  import opened Common
  import opened OrmQuery
  import opened Fsm

  const NameState: string := "ActivControlFSM:name"
  const IdState: string := "ActivControlFSM:id"

  // ---------------------------------------------------------------------------
  // List operations of the session

  predicate NoDuplicates(s: seq<string>) {
    forall i, j :: 0 <= i < j < |s| ==> s[i] != s[j]
  }

  /** `if x not in selected: selected.append(x)`. */
  function AddOnce(selected: seq<string>, x: string): (r: seq<string>)
    ensures x in r
    ensures forall y :: y in r <==> y in selected || y == x
    ensures NoDuplicates(selected) ==> NoDuplicates(r)
    ensures x in selected ==> r == selected
    ensures x !in selected ==> |r| == |selected| + 1 && r[..|selected|] == selected && r[|selected|] == x
  {
    if x in selected then selected else selected + [x]
  }

  /** Adding a name a second time changes nothing. */
  lemma AddOnceIdempotent(selected: seq<string>, x: string)
    ensures AddOnce(AddOnce(selected, x), x) == AddOnce(selected, x)
  {
  }

  /** `selected.pop(index)`: the entry at the index is gone, the others keep their order. */
  function RemoveAt(selected: seq<string>, index: nat): (r: seq<string>)
    requires index < |selected|
    ensures |r| == |selected| - 1
    ensures forall j :: 0 <= j < index ==> r[j] == selected[j]
    ensures forall j :: index <= j < |r| ==> r[j] == selected[j + 1]
    ensures NoDuplicates(selected) ==> NoDuplicates(r) && selected[index] !in r
    ensures forall y :: y in r ==> y in selected
  {
    selected[..index] + selected[index + 1..]
  }

  /** Popping the entry just appended gives back the list as it was. */
  lemma RemoveUndoesAdd(selected: seq<string>, x: string)
    requires x !in selected
    ensures RemoveAt(AddOnce(selected, x), |selected|) == selected
  {
    assert (selected + [x])[..|selected|] == selected;
  }

  /** `[p for p in snapshot if p not in selected]`. */
  function Without(snapshot: seq<string>, selected: seq<string>): (r: seq<string>)
    ensures |r| <= |snapshot|
    ensures forall x :: x in r <==> x in snapshot && x !in selected
  {
    if snapshot == [] then []
    else (if snapshot[0] in selected then [] else [snapshot[0]]) + Without(snapshot[1..], selected)
  }

  /** The complement keeps the snapshot order: it distributes over a split of the snapshot. */
  lemma {:induction false} WithoutAppend(a: seq<string>, b: seq<string>, selected: seq<string>)
    ensures Without(a + b, selected) == Without(a, selected) + Without(b, selected)
  {
    if a == [] {
      assert a + b == b;
    } else {
      assert (a + b)[1..] == a[1..] + b;
      WithoutAppend(a[1..], b, selected);
    }
  }

  /** With nothing selected the complement is the whole snapshot, in order. */
  lemma {:induction false} WithoutNothing(snapshot: seq<string>)
    ensures Without(snapshot, []) == snapshot
  {
    if snapshot != [] {
      WithoutNothing(snapshot[1..]);
    }
  }

  /** The selected names and the complement split the snapshot: disjoint, and together all of it. */
  ghost predicate Partition(snapshot: seq<string>, selected: seq<string>, result: seq<string>) {
    && (forall x :: x in snapshot <==> x in selected || x in result)
    && (forall x :: x in selected ==> x !in result)
  }

  // ---------------------------------------------------------------------------
  // The session invariant

  function Snapshot(v: Session): seq<string> {
    v.allPlayers.GetOr([])
  }

  function Selected(v: Session): seq<string> {
    v.selected.GetOr([])
  }

  /**
   * What every control handler keeps: the selection is duplicate-free and
   * drawn from the snapshot, and in state `id` the stored result is the
   * complement of the selection in the snapshot.
   */
  ghost predicate ControlInvariant(v: Session) {
    && NoDuplicates(Selected(v))
    && (forall x :: x in Selected(v) ==> x in Snapshot(v))
    && (v.state == Some(IdState) ==> v.result == Some(Without(Snapshot(v), Selected(v))))
  }

  /** In state `id` the selection and the stored result partition the snapshot. */
  lemma InvariantPartitions(v: Session)
    requires ControlInvariant(v) && v.state == Some(IdState)
    ensures v.result.Some? && Partition(Snapshot(v), Selected(v), v.result.value)
  {
  }

  lemma EmptySessionInvariant()
    ensures ControlInvariant(EmptySession)
  {
  }

  // ---------------------------------------------------------------------------
  // Step functions

  /** start_control: snapshot of the eligible names, empty selection and result, state `name`. */
  function StartStep(v: Session, rows: seq<Player>): (s: Session)
    ensures ControlInvariant(s)
    ensures s.state == Some(NameState) && s.allPlayers == Some(EligibleNames(rows))
    ensures s.selected == Some([]) && s.result == Some([])
    ensures s == v.(state := s.state, allPlayers := s.allPlayers, selected := s.selected, result := s.result)
  {
    v.(state := Some(NameState), allPlayers := Some(EligibleNames(rows)), selected := Some([]), result := Some([]))
  }

  /** add_player: in state `name`, a text naming a snapshot entry joins the selection once. */
  function AddStep(v: Session, msg: Message): (r: Step)
    ensures r.outcome == Unhandled <==> v.state != Some(NameState) || !msg.Text?
    ensures r.outcome == Done <==> v.state == Some(NameState) && msg.Text? && v.allPlayers.Some? && msg.text in v.allPlayers.value
    ensures r.outcome == Done ==> r.session == v.(selected := r.session.selected) && Selected(r.session) == AddOnce(Selected(v), msg.text)
    ensures r.outcome != Done ==> r.session == v
    ensures v.state == Some(NameState) && msg.Text? && v.allPlayers.Some? && msg.text !in v.allPlayers.value ==> r.outcome == Rejected
    ensures v.state == Some(NameState) && msg.Text? && v.allPlayers.None? ==> r.outcome == Raised(KeyError)
    ensures ControlInvariant(v) ==> ControlInvariant(r.session)
  {
    if v.state != Some(NameState) || !msg.Text? then Step(v, Unhandled)
    else if v.allPlayers.None? then Step(v, Raised(KeyError))
    else if msg.text !in v.allPlayers.value then Step(v, Rejected)
    else if msg.text in Selected(v) then Step(v, Done)
    else Step(v.(selected := Some(Selected(v) + [msg.text])), Done)
  }

  /** show_selected (the "+" button, in any state): stores the complement and enters state `id`. */
  function ShowStep(v: Session): (r: Step)
    ensures r.outcome == Done && r.session.state == Some(IdState)
    ensures r.session == v.(state := r.session.state, result := r.session.result)
    ensures (forall x :: x in Selected(v) ==> x in Snapshot(v)) ==>
      r.session.result.Some? && Partition(Snapshot(v), Selected(v), r.session.result.value)
    ensures ControlInvariant(v) ==> ControlInvariant(r.session)
  {
    Step(v.(state := Some(IdState), result := Some(Without(Snapshot(v), Selected(v)))), Done)
  }

  /** The range check of remove_player once the index is known: a valid index pops and returns to `name`. */
  function RemoveIndexStep(v: Session, index: int): (r: Step)
    ensures r.outcome == Done <==> 0 <= index < |Selected(v)|
    ensures r.outcome == Done ==> r.session == v.(state := Some(NameState), selected := Some(RemoveAt(Selected(v), index)))
    ensures r.outcome != Done ==> r.session == v && r.outcome == Rejected
    ensures ControlInvariant(v) ==> ControlInvariant(r.session)
  {
    var selected := Selected(v);
    if 0 <= index < |selected| then
      Step(v.(state := Some(NameState), selected := Some(RemoveAt(selected, index))), Done)
    else Step(v, Rejected)
  }

  /** remove_player of handlers/admin/controls.py: every event in state `id` goes through int(). */
  function RemoveStep(v: Session, msg: Message): (r: Step)
    ensures r.outcome == Unhandled <==> v.state != Some(IdState)
    ensures r.outcome.Raised? <==> v.state == Some(IdState) && (msg.Photo? || ParsePyInt(msg.text).None?)
    ensures v.state == Some(IdState) && msg.Text? && ParsePyInt(msg.text).Some? ==>
      r == RemoveIndexStep(v, ParsePyInt(msg.text).value)
    ensures r.outcome != Done ==> r.session == v
    ensures ControlInvariant(v) ==> ControlInvariant(r.session)
  {
    if v.state != Some(IdState) then Step(v, Unhandled)
    else
      match msg
      case Photo(_) => Step(v, Raised(TypeError))
      case Text(t) =>
        match ParsePyInt(t)
        case None => Step(v, Raised(ValueError))
        case Some(index) => RemoveIndexStep(v, index)
  }

  /** remove_player of handlers/admin_private.py: only texts matching `^\d+$` reach it. */
  function RemoveStepLegacy(v: Session, msg: Message): (r: Step)
    ensures r.outcome == Unhandled <==> v.state != Some(IdState) || !msg.Text? || !MatchesDigitPattern(msg.text)
    ensures !r.outcome.Raised?
    ensures v.state == Some(IdState) && msg.Text? && MatchesDigitPattern(msg.text) ==>
      ParsePyInt(msg.text).Some? && r == RemoveIndexStep(v, ParsePyInt(msg.text).value)
    ensures r.outcome != Done ==> r.session == v
    ensures ControlInvariant(v) ==> ControlInvariant(r.session)
  {
    if v.state != Some(IdState) || !msg.Text? || !MatchesDigitPattern(msg.text) then Step(v, Unhandled)
    else
      DigitPatternParses(msg.text);
      RemoveIndexStep(v, ParsePyInt(msg.text).value)
  }

  /** The two copies of remove_player agree on every text the older copy's filter lets through. */
  lemma RemoveVariantsAgree(v: Session, t: string)
    requires MatchesDigitPattern(t)
    ensures RemoveStepLegacy(v, Text(t)) == RemoveStep(v, Text(t))
  {
    DigitPatternParses(t);
  }

  /** A negative index is parsed by int() and then refused by the range check; nothing changes. */
  lemma NegativeIndexRejected(v: Session, n: nat)
    requires v.state == Some(IdState)
    ensures RemoveStep(v, Text("-" + NatToString(n + 1))) == Step(v, Rejected)
  {
    NegatedIndexParses(n + 1);
  }

  /** The index shown next to an entry by show_selected removes exactly that entry, in both copies. */
  lemma ShownIndexRemovesEntry(v: Session, index: nat)
    requires v.state == Some(IdState) && index < |Selected(v)|
    ensures RemoveStep(v, Text(NatToString(index))).session.selected == Some(RemoveAt(Selected(v), index))
    ensures RemoveStepLegacy(v, Text(NatToString(index))) == RemoveStep(v, Text(NatToString(index)))
  {
    RenderedIndexParses(index);
    RemoveVariantsAgree(v, NatToString(index));
  }

  /** An index typed with a leading zero, which both filters let through, removes the same entry. */
  lemma ZeroPaddedIndexRemovesEntry(v: Session, index: nat)
    requires v.state == Some(IdState) && index < |Selected(v)|
    ensures var t := "0" + NatToString(index);
      && RemoveStepLegacy(v, Text(t)) == RemoveStep(v, Text(t))
      && RemoveStep(v, Text(t)).session.selected == Some(RemoveAt(Selected(v), index))
  {
    var d := NatToString(index);
    var t := "0" + d;
    assert AllDigits(t) && t != [];
    DigitsValueLeadingZero(d);
    DigitsParse(t);
    RemoveVariantsAgree(v, t);
  }

  datatype PerformResult = PerformResult(session: Session, rows: seq<Player>, outcome: Outcome)

  /**
   * perform_control, in state `id` only: the increment rule on the stored
   * result, then the decrement rule on the selection (two separate updates),
   * then the session is cleared.
   */
  function PerformStep(v: Session, rows: seq<Player>): (r: PerformResult)
    ensures r.outcome == Unhandled <==> v.state != Some(IdState)
    ensures r.outcome == Done <==> v.state == Some(IdState) && v.result.Some? && v.selected.Some?
    ensures r.outcome == Done ==> r.session == EmptySession
    ensures r.outcome != Done ==> r.session == v
    ensures v.state == Some(IdState) && v.result.None? ==> r.outcome == Raised(KeyError) && r.rows == rows
    ensures v.state == Some(IdState) && v.result.Some? && v.selected.None? ==>
      r.outcome == Raised(KeyError) && r.rows == UpdateWhere(rows, v.result.value, Increment)
    ensures |r.rows| == |rows|
    ensures ControlInvariant(v) ==> ControlInvariant(r.session)
  {
    if v.state != Some(IdState) then PerformResult(v, rows, Unhandled)
    else if v.result.None? then PerformResult(v, rows, Raised(KeyError))
    else
      var plus := UpdateWhere(rows, v.result.value, Increment);
      if v.selected.None? then PerformResult(v, plus, Raised(KeyError))
      else PerformResult(EmptySession, UpdateWhere(plus, v.selected.value, Decrement), Done)
  }

  /** No count goes negative through a control, completed or not. */
  lemma PerformKeepsCountsNonNegative(v: Session, rows: seq<Player>)
    requires CountsNonNegative(rows)
    ensures CountsNonNegative(PerformStep(v, rows).rows)
  {
    if v.state == Some(IdState) && v.result.Some? {
      var plus := UpdateWhere(rows, v.result.value, Increment);
      UpdateKeepsCountsNonNegative(rows, v.result.value, Increment);
      if v.selected.Some? {
        UpdateKeepsCountsNonNegative(plus, v.selected.value, Decrement);
      }
    }
  }

  /**
   * What a completed control does to each row: a selected name gets the
   * decrement rule, any other snapshot name the increment rule, and a row
   * whose name is not in the snapshot is untouched.
   */
  lemma PerformEffect(v: Session, rows: seq<Player>, i: int)
    requires ControlInvariant(v)
    requires PerformStep(v, rows).outcome == Done
    requires 0 <= i < |rows|
    ensures var after := PerformStep(v, rows).rows;
      && (rows[i].name in Selected(v) ==> after[i] == Decremented(rows[i]))
      && (rows[i].name !in Selected(v) && rows[i].name in Snapshot(v) ==> after[i] == Incremented(rows[i]))
      && (rows[i].name !in Snapshot(v) ==> after[i] == rows[i])
  {
    var plus := UpdateWhere(rows, v.result.value, Increment);
    assert plus[i].name == rows[i].name;
  }

  // ---------------------------------------------------------------------------
  // The handlers

  /** start_control. */
  method StartControl(ctx: FsmContext, table: PlayerTable)
    modifies ctx
    ensures ctx.View() == StartStep(old(ctx.View()), table.rows)
  {
    ctx.allPlayers := Some(EligibleNames(table.rows));
    ctx.selected := Some([]);
    ctx.result := Some([]);
    ctx.state := Some(NameState);
  }

  /** add_player. */
  method AddPlayer(ctx: FsmContext, msg: Message) returns (o: Outcome)
    modifies ctx
    ensures ctx.View() == AddStep(old(ctx.View()), msg).session
    ensures o == AddStep(old(ctx.View()), msg).outcome
  {
    if ctx.state != Some(NameState) || !msg.Text? {
      return Unhandled;
    }
    if ctx.allPlayers.None? {
      return Raised(KeyError);
    }
    var player := msg.text;
    if player in ctx.allPlayers.value {
      var selected := ctx.selected.GetOr([]);
      if player !in selected {
        selected := selected + [player];
        ctx.selected := Some(selected);
      }
      o := Done;
    } else {
      o := Rejected;
    }
  }

  /** show_selected. */
  method ShowSelected(ctx: FsmContext) returns (o: Outcome)
    modifies ctx
    ensures ctx.View() == ShowStep(old(ctx.View())).session
    ensures o == Done
  {
    var selected := ctx.selected.GetOr([]);
    var allPlayers := ctx.allPlayers.GetOr([]);
    ctx.result := Some(Without(allPlayers, selected));
    ctx.state := Some(IdState);
    o := Done;
  }

  /** The body of remove_player once int() has produced the index. */
  method RemoveIndex(ctx: FsmContext, index: int) returns (o: Outcome)
    modifies ctx
    ensures ctx.View() == RemoveIndexStep(old(ctx.View()), index).session
    ensures o == RemoveIndexStep(old(ctx.View()), index).outcome
  {
    var selected := ctx.selected.GetOr([]);
    if 0 <= index < |selected| {
      selected := selected[..index] + selected[index + 1..];
      ctx.selected := Some(selected);
      ctx.state := Some(NameState);
      o := Done;
    } else {
      o := Rejected;
    }
  }

  /** remove_player of handlers/admin/controls.py. */
  method RemovePlayer(ctx: FsmContext, msg: Message) returns (o: Outcome)
    modifies ctx
    ensures ctx.View() == RemoveStep(old(ctx.View()), msg).session
    ensures o == RemoveStep(old(ctx.View()), msg).outcome
  {
    if ctx.state != Some(IdState) {
      return Unhandled;
    }
    if msg.Photo? {
      return Raised(TypeError);
    }
    var index := ParsePyInt(msg.text);
    if index.None? {
      return Raised(ValueError);
    }
    o := RemoveIndex(ctx, index.value);
  }

  /** remove_player of handlers/admin_private.py. */
  method RemovePlayerLegacy(ctx: FsmContext, msg: Message) returns (o: Outcome)
    modifies ctx
    ensures ctx.View() == RemoveStepLegacy(old(ctx.View()), msg).session
    ensures o == RemoveStepLegacy(old(ctx.View()), msg).outcome
  {
    if ctx.state != Some(IdState) || !msg.Text? || !MatchesDigitPattern(msg.text) {
      return Unhandled;
    }
    DigitPatternParses(msg.text);
    o := RemoveIndex(ctx, ParsePyInt(msg.text).value);
  }

  /** perform_control. */
  method PerformControl(ctx: FsmContext, table: PlayerTable) returns (o: Outcome)
    modifies ctx, table
    ensures ctx.View() == PerformStep(old(ctx.View()), old(table.rows)).session
    ensures table.rows == PerformStep(old(ctx.View()), old(table.rows)).rows
    ensures o == PerformStep(old(ctx.View()), old(table.rows)).outcome
  {
    if ctx.state != Some(IdState) {
      return Unhandled;
    }
    if ctx.result.None? {
      return Raised(KeyError);
    }
    table.UpdatePlus(ctx.result.value);
    if ctx.selected.None? {
      return Raised(KeyError);
    }
    table.UpdateMinus(ctx.selected.value);
    ctx.Clear();
    o := Done;
  }
}
