/**
 * The generic create/edit wizard for cards and players
 * (handlers/admin/fsm.py, the older copy in handlers/admin_private.py, and
 * the entry handlers in handlers/admin/cards.py): cancel and back work in
 * any state, the name step validates and stores a stripped name, the image
 * step takes a photo, and save_entity writes the entity and always ends the
 * conversation.
 */
module Wizard {
  import opened Common
  import opened OrmQuery
  import opened Fsm

  const CardName: string := "AddCard:name"
  const CardImage: string := "AddCard:image"
  const UserName: string := "AddUser:name"

  /** `AddCard.__all_states__ + AddUser.__all_states__`, in declaration order. */
  const WizardStates: seq<string> := [CardName, CardImage, UserName]

  /** The state group save_entity is called with. */
  datatype Group = CardGroup | UserGroup

  /** The states of one group, in declaration order. */
  function GroupStates(g: Group): (r: seq<string>)
    ensures forall s :: s in r ==> s in WizardStates
  {
    match g
    case CardGroup => [CardName, CardImage]
    case UserGroup => [UserName]
  }

  /** The group a state belongs to, by the prefix of its name. */
  function GroupOf(state: string): Group {
    if "AddCard" <= state then CardGroup else UserGroup
  }

  lemma GroupsOfStates()
    ensures GroupOf(CardName) == CardGroup && GroupOf(CardImage) == CardGroup && GroupOf(UserName) == UserGroup
  {
    assert CardName[..7] == "AddCard";
    assert CardImage[..7] == "AddCard";
    assert UserName[3] != "AddCard"[3];
  }

  // ---------------------------------------------------------------------------
  // Cancel

  /** The cancel filter of handlers/admin/fsm.py: the case-folded text is "отмена" or "/отмена". */
  predicate IsCancelText(msg: Message) {
    msg.Text? && (CaseFold(msg.text) == "отмена" || CaseFold(msg.text) == "/отмена")
  }

  /** The cancel filters of handlers/admin_private.py: the /отмена command, or the case-folded text "отмена". */
  predicate IsCancelTextLegacy(msg: Message) {
    msg.Text? && (IsCommand(msg.text, "отмена") || CaseFold(msg.text) == "отмена")
  }

  /** cancel_handler: with any state set, the conversation ends; without one nothing happens. */
  function CancelStep(v: Session, accepted: bool): (r: Step)
    ensures !accepted <==> r.outcome == Unhandled
    ensures r.outcome == Done <==> accepted && v.state.Some?
    ensures r.session == if r.outcome == Done then EmptySession else v
    ensures accepted && v.state.None? ==> r.outcome == Ignored
  {
    if !accepted then Step(v, Unhandled)
    else if v.state.None? then Step(v, Ignored)
    else Step(EmptySession, Done)
  }

  /** Case folding a text letter by letter: how the command words below are evaluated. */
  lemma FoldsTo(s: string, t: string)
    requires |s| == |t| && forall k :: 0 <= k < |s| ==> FoldChar(s[k]) == t[k]
    ensures CaseFold(s) == t
  {
  }

  /** The command filter takes the bare command word. */
  lemma BareCommand(word: string)
    requires word != [] && forall k :: 0 <= k < |word| ==> !IsSpace(word[k])
    ensures IsCommand("/" + word, word)
  {
    var s := "/" + word;
    assert TrimStart(s) == s;
  }

  /** Both copies of the cancel filter take the word in any letter case, and the bare command. */
  lemma CancelWordsAccepted()
    ensures IsCancelText(Text("Отмена")) && IsCancelTextLegacy(Text("Отмена"))
    ensures IsCancelText(Text("/отмена")) && IsCancelTextLegacy(Text("/отмена"))
  {
    CancelWordAccepted();
    CancelCommandAccepted();
  }

  lemma CancelWordAccepted()
    ensures IsCancelText(Text("Отмена")) && IsCancelTextLegacy(Text("Отмена"))
  {
    FoldsTo("Отмена", "отмена");
  }

  lemma CancelCommandAccepted()
    ensures IsCancelText(Text("/отмена")) && IsCancelTextLegacy(Text("/отмена"))
  {
    CancelCommandFolded();
    CancelCommandMatched();
  }

  lemma CancelCommandFolded()
    ensures IsCancelText(Text("/отмена"))
  {
    FoldsTo("/отмена", "/отмена");
  }

  lemma CancelCommandMatched()
    ensures IsCancelTextLegacy(Text("/отмена"))
  {
    BareCommand("отмена");
  }

  /** Only the older copy, through its command filter, takes the command followed by arguments. */
  lemma CancelCommandWithArguments(rest: string)
    ensures IsCancelTextLegacy(Text("/отмена " + rest)) && !IsCancelText(Text("/отмена " + rest))
  {
    assert "/отмена " + rest == "/" + "отмена" + " " + rest;
    CommandTakesArguments("отмена", rest);
  }

  /** Only the newer copy takes the command in capitals: the command filter does not fold case. */
  lemma CancelCommandCaseFolded()
    ensures IsCancelText(Text("/ОТМЕНА")) && !IsCancelTextLegacy(Text("/ОТМЕНА"))
  {
    CancelCapitalsFolded();
    CancelCapitalsNotCommand();
  }

  lemma CancelCapitalsFolded()
    ensures IsCancelText(Text("/ОТМЕНА"))
  {
    FoldsTo("/ОТМЕНА", "/отмена");
  }

  lemma CancelCapitalsNotCommand()
    ensures !IsCancelTextLegacy(Text("/ОТМЕНА"))
  {
    var s := "/ОТМЕНА";
    OneWordCommand(s, "отмена");
    assert s[1] != ("/" + "отмена")[1];
  }

  method Cancel(ctx: FsmContext, msg: Message) returns (o: Outcome)
    modifies ctx
    ensures ctx.View() == CancelStep(old(ctx.View()), IsCancelText(msg)).session
    ensures o == CancelStep(old(ctx.View()), IsCancelText(msg)).outcome
  {
    o := CancelWith(ctx, IsCancelText(msg));
  }

  method CancelLegacy(ctx: FsmContext, msg: Message) returns (o: Outcome)
    modifies ctx
    ensures ctx.View() == CancelStep(old(ctx.View()), IsCancelTextLegacy(msg)).session
    ensures o == CancelStep(old(ctx.View()), IsCancelTextLegacy(msg)).outcome
  {
    o := CancelWith(ctx, IsCancelTextLegacy(msg));
  }

  method CancelWith(ctx: FsmContext, accepted: bool) returns (o: Outcome)
    modifies ctx
    ensures ctx.View() == CancelStep(old(ctx.View()), accepted).session
    ensures o == CancelStep(old(ctx.View()), accepted).outcome
  {
    if !accepted {
      return Unhandled;
    }
    if ctx.state.None? {
      return Ignored;
    }
    ctx.Clear();
    o := Done;
  }

  // ---------------------------------------------------------------------------
  // Back

  predicate IsBackText(msg: Message) {
    msg.Text? && (CaseFold(msg.text) == "назад" || CaseFold(msg.text) == "/назад")
  }

  predicate IsBackTextLegacy(msg: Message) {
    msg.Text? && (IsCommand(msg.text, "назад") || CaseFold(msg.text) == "назад")
  }

  /** Both copies of the back filter take the word in any letter case, and the bare command. */
  lemma BackWordsAccepted()
    ensures IsBackText(Text("Назад")) && IsBackTextLegacy(Text("Назад"))
    ensures IsBackText(Text("/назад")) && IsBackTextLegacy(Text("/назад"))
  {
    BackWordAccepted();
    BackCommandAccepted();
  }

  lemma BackWordAccepted()
    ensures IsBackText(Text("Назад")) && IsBackTextLegacy(Text("Назад"))
  {
    FoldsTo("Назад", "назад");
  }

  lemma BackCommandAccepted()
    ensures IsBackText(Text("/назад")) && IsBackTextLegacy(Text("/назад"))
  {
    BackCommandFolded();
    BackCommandMatched();
  }

  lemma BackCommandFolded()
    ensures IsBackText(Text("/назад"))
  {
    FoldsTo("/назад", "/назад");
  }

  lemma BackCommandMatched()
    ensures IsBackTextLegacy(Text("/назад"))
  {
    BareCommand("назад");
  }

  /** Only the older copy, through its command filter, takes the command followed by arguments. */
  lemma BackCommandWithArguments(rest: string)
    ensures IsBackTextLegacy(Text("/назад " + rest)) && !IsBackText(Text("/назад " + rest))
  {
    assert "/назад " + rest == "/" + "назад" + " " + rest;
    CommandTakesArguments("назад", rest);
  }

  /** Where the back handler's loop ends. */
  datatype BackTarget = NotListed | AlreadyFirst | MoveTo(previous: string)

  /** The position of the first occurrence of x in s. */
  function FirstIndex(s: seq<string>, x: string): (i: nat)
    requires x in s
    ensures i < |s| && s[i] == x
    ensures forall j :: 0 <= j < i ==> s[j] != x
  {
    if s[0] == x then 0 else 1 + FirstIndex(s[1..], x)
  }

  /** The state listed just before the first occurrence of the current one. */
  function BackTargetOf(states: seq<string>, current: string): (r: BackTarget)
    ensures r == NotListed <==> current !in states
    ensures current in states ==> (r == AlreadyFirst <==> FirstIndex(states, current) == 0)
    ensures r.MoveTo? ==> current in states && r.previous == states[FirstIndex(states, current) - 1]
  {
    if current !in states then NotListed
    else
      var i := FirstIndex(states, current);
      if i == 0 then AlreadyFirst else MoveTo(states[i - 1])
  }

  /** The loop of back_step_handler over the listed states, remembering the previous step. */
  method FindPrevious(states: seq<string>, current: string) returns (r: BackTarget)
    ensures r == BackTargetOf(states, current)
    ensures r.MoveTo? ==> current in states && r.previous == states[FirstIndex(states, current) - 1]
  {
    var previous: Option<string> := None;
    var i := 0;
    while i < |states|
      invariant 0 <= i <= |states|
      invariant forall j :: 0 <= j < i ==> states[j] != current
      invariant previous == if i == 0 then None else Some(states[i - 1])
    {
      if states[i] == current {
        assert FirstIndex(states, current) == i;
        if previous.Some? {
          return MoveTo(previous.value);
        }
        return AlreadyFirst;
      }
      previous := Some(states[i]);
      i := i + 1;
    }
    r := NotListed;
  }

  /** back_step_handler, given whether its filter matched. */
  function BackStep(v: Session, accepted: bool): (r: Step)
    ensures !accepted <==> r.outcome == Unhandled
    ensures r.outcome == Done <==> accepted && v.state.Some? && BackTargetOf(WizardStates, v.state.value).MoveTo?
    ensures r.outcome == Done ==> r.session == v.(state := Some(BackTargetOf(WizardStates, v.state.value).previous))
    ensures r.outcome != Done ==> r.session == v
    ensures r.outcome == Rejected <==> accepted && v.state.Some? && BackTargetOf(WizardStates, v.state.value) == AlreadyFirst
    ensures accepted && (v.state.None? || v.state.value !in WizardStates) ==> r.outcome == Ignored
  {
    if !accepted || v.state.None? then Step(v, if accepted then Ignored else Unhandled)
    else
      match BackTargetOf(WizardStates, v.state.value)
      case NotListed => Step(v, Ignored)
      case AlreadyFirst => Step(v, Rejected)
      case MoveTo(p) => Step(v.(state := Some(p)), Done)
  }

  method Back(ctx: FsmContext, msg: Message) returns (o: Outcome)
    modifies ctx
    ensures ctx.View() == BackStep(old(ctx.View()), IsBackText(msg)).session
    ensures o == BackStep(old(ctx.View()), IsBackText(msg)).outcome
  {
    o := BackWith(ctx, IsBackText(msg));
  }

  method BackLegacy(ctx: FsmContext, msg: Message) returns (o: Outcome)
    modifies ctx
    ensures ctx.View() == BackStep(old(ctx.View()), IsBackTextLegacy(msg)).session
    ensures o == BackStep(old(ctx.View()), IsBackTextLegacy(msg)).outcome
  {
    o := BackWith(ctx, IsBackTextLegacy(msg));
  }

  method BackWith(ctx: FsmContext, accepted: bool) returns (o: Outcome)
    modifies ctx
    ensures ctx.View() == BackStep(old(ctx.View()), accepted).session
    ensures o == BackStep(old(ctx.View()), accepted).outcome
  {
    if !accepted {
      return Unhandled;
    }
    if ctx.state.None? {
      return Ignored;
    }
    var target := FindPrevious(WizardStates, ctx.state.value);
    match target
    case NotListed => o := Ignored;
    case AlreadyFirst => o := Rejected;
    case MoveTo(p) => ctx.state := Some(p); o := Done;
  }

  /** Back moves within the card group as intended, and stops at its first step. */
  lemma BackWithinCards()
    ensures BackTargetOf(WizardStates, CardImage) == MoveTo(CardName)
    ensures BackTargetOf(WizardStates, CardName) == AlreadyFirst
  {
    assert FirstIndex(WizardStates, CardImage) == 1;
  }

  /**
   * As written, the list joins the two groups, so back from the only player
   * step moves into the card group's image step.
   */
  lemma BackLeavesUserGroup()
    ensures BackTargetOf(WizardStates, UserName) == MoveTo(CardImage)
    ensures GroupOf(CardImage) != GroupOf(UserName)
  {
    GroupsOfStates();
    assert FirstIndex(WizardStates, UserName) == 2;
  }

  /** The intended back: look up the previous step in the current state's own group only. */
  function BackTargetFixed(current: string): (r: BackTarget)
    ensures current in WizardStates ==> !r.NotListed?
    ensures r.MoveTo? ==> GroupOf(r.previous) == GroupOf(current)
  {
    GroupsOfStates();
    BackTargetOf(GroupStates(GroupOf(current)), current)
  }

  /** The corrected back agrees with the written one inside the card group and stops at the player group's first step. */
  lemma BackFixedAgrees()
    ensures BackTargetFixed(CardImage) == BackTargetOf(WizardStates, CardImage)
    ensures BackTargetFixed(CardName) == BackTargetOf(WizardStates, CardName)
    ensures BackTargetFixed(UserName) == AlreadyFirst
  {
    GroupsOfStates();
    BackWithinCards();
    assert FirstIndex(GroupStates(CardGroup), CardImage) == 1;
  }

  // ---------------------------------------------------------------------------
  // Saving

  /** Python truthiness of `data.get("item_for_change")`: an edit, not a creation. */
  predicate Editing(v: Session) {
    v.itemForChange.Some? && v.itemForChange.value.Truthy()
  }

  datatype WizardResult = WizardResult(session: Session, cards: seq<Card>, rows: seq<Player>, outcome: Outcome)

  /**
   * save_entity: an edit updates the row stored under `original_key`, a
   * creation inserts a new row; a missing `name` or `image` key is a
   * KeyError and a duplicate card name an IntegrityError, both caught and
   * reported; in every case the conversation ends.
   */
  function SaveStep(v: Session, group: Group, cards: seq<Card>, rows: seq<Player>): (r: WizardResult)
    ensures r.session == EmptySession
    ensures r.outcome in {Done, Caught(KeyError), Caught(IntegrityError)}
    ensures r.outcome != Done ==> r.cards == cards && r.rows == rows
    ensures group == CardGroup ==> r.rows == rows
    ensures group == UserGroup ==> r.cards == cards && r.outcome != Caught(IntegrityError)
    ensures r.outcome == Caught(KeyError) <==> v.name.None? || (group == CardGroup && v.image.None?)
    ensures DistinctCardNames(cards) ==> DistinctCardNames(r.cards)
    ensures |r.rows| == |rows| + (if group == UserGroup && !Editing(v) && r.outcome == Done then 1 else 0)
    ensures group == CardGroup && Editing(v) && v.name.Some? && v.image.Some? && v.originalKey.Some? ==>
      var u := ReplaceCard(cards, v.originalKey.value, Card(v.name.value, v.image.value));
      (r.outcome == Done <==> DistinctCardNames(u)) && (r.outcome == Done ==> r.cards == u)
  {
    match group
    case CardGroup =>
      if v.name.None? || v.image.None? then WizardResult(EmptySession, cards, rows, Caught(KeyError))
      else
        var card := Card(v.name.value, v.image.value);
        if Editing(v) then
          if v.originalKey.None? then WizardResult(EmptySession, cards, rows, Done)
          else
            var updated := ReplaceCard(cards, v.originalKey.value, card);
            if DistinctCardNames(updated) then WizardResult(EmptySession, updated, rows, Done)
            else WizardResult(EmptySession, cards, rows, Caught(IntegrityError))
        else if FindCard(cards, card.name).Some? then WizardResult(EmptySession, cards, rows, Caught(IntegrityError))
        else
          WizardResult(EmptySession, cards + [card], rows, Done)
    case UserGroup =>
      if v.name.None? then WizardResult(EmptySession, cards, rows, Caught(KeyError))
      else if Editing(v) then
        var renamed := if v.originalKey.None? then rows else UpdateWhere(rows, [v.originalKey.value], Rename(v.name.value));
        WizardResult(EmptySession, cards, renamed, Done)
      else
        WizardResult(EmptySession, cards, rows + [NewPlayer(v.name.value)], Done)
  }

  /** Creating a card succeeds exactly when its name is new, and then appends it. */
  lemma SaveCreatesCard(v: Session, cards: seq<Card>, rows: seq<Player>)
    requires !Editing(v) && v.name.Some? && v.image.Some?
    ensures var r := SaveStep(v, CardGroup, cards, rows);
      && (r.outcome == Done <==> forall c :: c in cards ==> c.name != v.name.value)
      && (r.outcome == Done ==> r.cards == cards + [Card(v.name.value, v.image.value)])
  {
    var r := SaveStep(v, CardGroup, cards, rows);
    if r.outcome == Done {
      assert FindCard(cards, v.name.value).None?;
    } else {
      var c := FindCard(cards, v.name.value).value;
      assert c in cards;
    }
  }

  /**
   * Editing a card, on a table whose names are distinct, succeeds exactly
   * when the new name is not taken by another card; it then writes the new
   * name and image into the row under the original key and keeps the others.
   */
  lemma SaveUpdatesCard(v: Session, cards: seq<Card>, rows: seq<Player>)
    requires Editing(v) && v.name.Some? && v.image.Some? && v.originalKey.Some?
    requires DistinctCardNames(cards)
    requires exists k :: 0 <= k < |cards| && cards[k].name == v.originalKey.value
    ensures var r := SaveStep(v, CardGroup, cards, rows);
      && (r.outcome == Done <==> forall c :: c in cards && c.name == v.name.value ==> c.name == v.originalKey.value)
      && (r.outcome == Done ==> forall i :: 0 <= i < |cards| ==>
            r.cards[i] == if cards[i].name == v.originalKey.value then Card(v.name.value, v.image.value) else cards[i])
  {
    var key := v.originalKey.value;
    var card := Card(v.name.value, v.image.value);
    var u := ReplaceCard(cards, key, card);
    if forall c :: c in cards && c.name == card.name ==> c.name == key {
      forall i, j | 0 <= i < j < |u|
        ensures u[i].name != u[j].name
      {
        assert cards[i] in cards && cards[j] in cards;
      }
    } else {
      var c :| c in cards && c.name == card.name && c.name != key;
      var j :| 0 <= j < |cards| && cards[j] == c;
      var k :| 0 <= k < |cards| && cards[k].name == key;
      assert u[k] == card && u[j] == c && k != j;
      assert !DistinctCardNames(u) by {
        if k < j { assert u[k].name == u[j].name; } else { assert u[j].name == u[k].name; }
      }
    }
  }

  /** Creating a player appends a fresh row; editing one renames every row under the original key. */
  lemma SavePlayer(v: Session, cards: seq<Card>, rows: seq<Player>)
    requires v.name.Some?
    ensures var r := SaveStep(v, UserGroup, cards, rows);
      && r.outcome == Done
      && (!Editing(v) ==> r.rows == rows + [NewPlayer(v.name.value)])
      && (Editing(v) && v.originalKey.Some? ==> r.rows == UpdateWhere(rows, [v.originalKey.value], Rename(v.name.value)))
  {
  }

  method SaveEntity(ctx: FsmContext, group: Group, cardTable: CardTable, playerTable: PlayerTable) returns (o: Outcome)
    modifies ctx, cardTable, playerTable
    ensures var r := SaveStep(old(ctx.View()), group, old(cardTable.cards), old(playerTable.rows));
      ctx.View() == r.session && cardTable.cards == r.cards && playerTable.rows == r.rows && o == r.outcome
  {
    var editing := ctx.itemForChange.Some? && ctx.itemForChange.value.Truthy();
    match group {
      case CardGroup =>
        if ctx.name.None? || ctx.image.None? {
          o := Caught(KeyError);
        } else if editing {
          if ctx.originalKey.None? {
            o := Done;
          } else {
            var ok := cardTable.UpdateCard(ctx.originalKey.value, ctx.name.value, ctx.image.value);
            o := if ok then Done else Caught(IntegrityError);
          }
        } else {
          var ok := cardTable.AddCard(ctx.name.value, ctx.image.value);
          o := if ok then Done else Caught(IntegrityError);
        }
      case UserGroup =>
        if ctx.name.None? {
          o := Caught(KeyError);
        } else if editing {
          if ctx.originalKey.Some? {
            playerTable.ChangePlayer(ctx.originalKey.value, ctx.name.value);
          }
          o := Done;
        } else {
          playerTable.AddPlayer(ctx.name.value);
          o := Done;
        }
    }
    ctx.Clear();
  }

  // ---------------------------------------------------------------------------
  // The name step

  /** A name the name step accepts: 3 to 150 characters with no surrounding whitespace. */
  predicate ValidName(t: string) {
    3 <= |t| <= 150 && !IsSpace(t[0]) && !IsSpace(t[|t| - 1])
  }

  predicate InNameState(v: Session) {
    v.state == Some(CardName) || v.state == Some(UserName)
  }

  /** str.strip() and the length check: the name to store, or None when it is refused. */
  function CheckedName(text: string): (r: Option<string>)
    ensures r.Some? <==> 3 <= |Strip(text)| <= 150
    ensures r.Some? ==> r.value == Strip(text) && ValidName(r.value)
  {
    var t := Strip(text);
    if 3 <= |t| <= 150 then Some(t) else None
  }

  /** After a name is stored: the card wizard moves on to the image, the player wizard saves. */
  function AfterName(v: Session, t: string, cards: seq<Card>, rows: seq<Player>): (r: WizardResult)
    requires InNameState(v)
    ensures r.outcome in {Done, Caught(KeyError), Caught(IntegrityError)}
    ensures v.state == Some(CardName) ==> r == WizardResult(v.(name := Some(t), state := Some(CardImage)), cards, rows, Done)
    ensures v.state == Some(UserName) ==> r == SaveStep(v.(name := Some(t)), UserGroup, cards, rows)
  {
    if v.state == Some(CardName) then WizardResult(v.(name := Some(t), state := Some(CardImage)), cards, rows, Done)
    else SaveStep(v.(name := Some(t)), UserGroup, cards, rows)
  }

  /** handle_name_input of handlers/admin/fsm.py. */
  function NameInputStep(v: Session, msg: Message, cards: seq<Card>, rows: seq<Player>): (r: WizardResult)
    ensures r.outcome == Unhandled <==> !msg.Text? || !InNameState(v)
    ensures r.outcome == Raised(TypeError) <==> InNameState(v) && msg.Text? && Strip(msg.text) == "." && v.itemForChange.Some?
    ensures InNameState(v) && msg.Text? && Strip(msg.text) == "." && v.itemForChange.None? ==>
      r == WizardResult(v, cards, rows, Rejected)
    ensures r.outcome in {Unhandled, Rejected, Raised(TypeError)} ==> r == WizardResult(v, cards, rows, r.outcome)
    ensures msg.Text? && InNameState(v) && Strip(msg.text) != "." ==>
      (r.outcome == Rejected <==> CheckedName(msg.text).None?)
    ensures msg.Text? && InNameState(v) && Strip(msg.text) != "." && CheckedName(msg.text).Some? ==>
      r == AfterName(v, CheckedName(msg.text).value, cards, rows)
  {
    if !msg.Text? || !InNameState(v) then WizardResult(v, cards, rows, Unhandled)
    else if Strip(msg.text) == "." then
      if v.itemForChange.Some? then WizardResult(v, cards, rows, Raised(TypeError))
      else WizardResult(v, cards, rows, Rejected)
    else
      match CheckedName(msg.text)
      case None => WizardResult(v, cards, rows, Rejected)
      case Some(t) => AfterName(v, t, cards, rows)
  }

  /** handle_name_input of handlers/admin_private.py: no skip, the group taken from the state's prefix. */
  function NameInputStepLegacy(v: Session, msg: Message, cards: seq<Card>, rows: seq<Player>): (r: WizardResult)
    ensures r.outcome == Unhandled <==> !msg.Text? || !InNameState(v)
    ensures r.outcome == Rejected <==> msg.Text? && InNameState(v) && CheckedName(msg.text).None?
    ensures r.outcome in {Unhandled, Rejected} ==> r == WizardResult(v, cards, rows, r.outcome)
    ensures msg.Text? && InNameState(v) && CheckedName(msg.text).Some? ==>
      r == AfterName(v, CheckedName(msg.text).value, cards, rows)
  {
    GroupsOfStates();
    if !msg.Text? || !InNameState(v) then WizardResult(v, cards, rows, Unhandled)
    else
      match CheckedName(msg.text)
      case None => WizardResult(v, cards, rows, Rejected)
      case Some(t) =>
        var next := v.(name := Some(t));
        if GroupOf(v.state.value) == CardGroup then WizardResult(next.(state := Some(CardImage)), cards, rows, Done)
        else SaveStep(next, UserGroup, cards, rows)
  }

  /** The two copies of the name step agree on every text other than the skip mark. */
  lemma NameInputVariantsAgree(v: Session, t: string, cards: seq<Card>, rows: seq<Player>)
    requires Strip(t) != "."
    ensures NameInputStepLegacy(v, Text(t), cards, rows) == NameInputStep(v, Text(t), cards, rows)
  {
  }

  /** A name typed with surrounding whitespace is stored without it. */
  lemma PaddedNameStored(v: Session, left: string, core: string, right: string, cards: seq<Card>, rows: seq<Player>)
    requires v.state == Some(CardName)
    requires AllSpaces(left) && AllSpaces(right)
    requires 3 <= |core| <= 150 && !IsSpace(core[0]) && !IsSpace(core[|core| - 1])
    ensures NameInputStep(v, Text(left + core + right), cards, rows)
      == WizardResult(v.(name := Some(core), state := Some(CardImage)), cards, rows, Done)
  {
    PaddedNameChecked(left, core, right);
  }

  lemma PaddedNameChecked(left: string, core: string, right: string)
    requires AllSpaces(left) && AllSpaces(right)
    requires 3 <= |core| <= 150 && !IsSpace(core[0]) && !IsSpace(core[|core| - 1])
    ensures Strip(left + core + right) != "." && CheckedName(left + core + right) == Some(core)
  {
    StripPadded(left, core, right);
  }

  /** A name of fewer than three characters, once stripped, is refused and changes nothing. */
  lemma ShortNameRejected(v: Session, t: string, cards: seq<Card>, rows: seq<Player>)
    requires InNameState(v) && |Strip(t)| < 3 && Strip(t) != "."
    ensures NameInputStep(v, Text(t), cards, rows) == WizardResult(v, cards, rows, Rejected)
  {
  }

  /** The skip mark in an edit raises: the stored row is an object, not a dictionary. */
  lemma SkipNameRaises(v: Session, t: string, cards: seq<Card>, rows: seq<Player>)
    requires InNameState(v) && v.itemForChange.Some? && Strip(t) == "."
    ensures NameInputStep(v, Text(t), cards, rows) == WizardResult(v, cards, rows, Raised(TypeError))
  {
  }

  method NameInput(ctx: FsmContext, msg: Message, cardTable: CardTable, playerTable: PlayerTable) returns (o: Outcome)
    modifies ctx, cardTable, playerTable
    ensures var r := NameInputStep(old(ctx.View()), msg, old(cardTable.cards), old(playerTable.rows));
      ctx.View() == r.session && cardTable.cards == r.cards && playerTable.rows == r.rows && o == r.outcome
  {
    if !msg.Text? || !(ctx.state == Some(CardName) || ctx.state == Some(UserName)) {
      return Unhandled;
    }
    var isCard := ctx.state == Some(CardName);
    var t := Strip(msg.text);
    if t == "." {
      if ctx.itemForChange.Some? {
        return Raised(TypeError);
      }
      return Rejected;
    }
    var checked := CheckedName(msg.text);
    if checked.None? {
      return Rejected;
    }
    ctx.name := Some(checked.value);
    if isCard {
      ctx.state := Some(CardImage);
      o := Done;
    } else {
      o := SaveEntity(ctx, UserGroup, cardTable, playerTable);
    }
  }

  method NameInputLegacy(ctx: FsmContext, msg: Message, cardTable: CardTable, playerTable: PlayerTable) returns (o: Outcome)
    modifies ctx, cardTable, playerTable
    ensures var r := NameInputStepLegacy(old(ctx.View()), msg, old(cardTable.cards), old(playerTable.rows));
      ctx.View() == r.session && cardTable.cards == r.cards && playerTable.rows == r.rows && o == r.outcome
  {
    if !msg.Text? || !(ctx.state == Some(CardName) || ctx.state == Some(UserName)) {
      return Unhandled;
    }
    GroupsOfStates();
    var group := GroupOf(ctx.state.value);
    var checked := CheckedName(msg.text);
    if checked.None? {
      return Rejected;
    }
    ctx.name := Some(checked.value);
    if group == CardGroup {
      ctx.state := Some(CardImage);
      o := Done;
    } else {
      o := SaveEntity(ctx, UserGroup, cardTable, playerTable);
    }
  }

  // ---------------------------------------------------------------------------
  // The image step

  /** The image handler's filter: state `AddCard:image` and a photo or the text ".". */
  predicate ImageAccepted(v: Session, msg: Message) {
    v.state == Some(CardImage) && (msg.Photo? || msg == Text("."))
  }

  /** handle_card_image of handlers/admin/fsm.py. */
  function ImageStep(v: Session, msg: Message, cards: seq<Card>, rows: seq<Player>): (r: WizardResult)
    ensures r.outcome == Unhandled <==> !ImageAccepted(v, msg)
    ensures r.outcome in {Unhandled, Rejected, Raised(TypeError)} ==> r == WizardResult(v, cards, rows, r.outcome)
    ensures msg.Photo? && ImageAccepted(v, msg) ==> r == SaveStep(v.(image := Some(msg.fileId)), CardGroup, cards, rows)
    ensures msg.Text? && ImageAccepted(v, msg) ==> (r.outcome == Raised(TypeError) <==> v.itemForChange.Some?)
    ensures r.rows == rows
  {
    if !ImageAccepted(v, msg) then WizardResult(v, cards, rows, Unhandled)
    else
      match msg
      case Photo(f) => SaveStep(v.(image := Some(f)), CardGroup, cards, rows)
      case Text(_) =>
        if v.itemForChange.Some? then WizardResult(v, cards, rows, Raised(TypeError))
        else WizardResult(v, cards, rows, Rejected)
  }

  /** handle_card_image of handlers/admin_private.py: the skip mark calls `.get` on the row, or saves without an image. */
  function ImageStepLegacy(v: Session, msg: Message, cards: seq<Card>, rows: seq<Player>): (r: WizardResult)
    ensures r.outcome == Unhandled <==> !ImageAccepted(v, msg)
    ensures r.outcome in {Unhandled, Raised(AttributeError)} ==> r == WizardResult(v, cards, rows, r.outcome)
    ensures msg.Photo? ==> r == ImageStep(v, msg, cards, rows)
    ensures msg.Text? && ImageAccepted(v, msg) ==>
      if v.itemForChange.Some? then r.outcome == Raised(AttributeError) else r == SaveStep(v, CardGroup, cards, rows)
    ensures r.rows == rows
  {
    if !ImageAccepted(v, msg) then WizardResult(v, cards, rows, Unhandled)
    else
      match msg
      case Photo(f) => SaveStep(v.(image := Some(f)), CardGroup, cards, rows)
      case Text(_) =>
        if v.itemForChange.Some? then WizardResult(v, cards, rows, Raised(AttributeError))
        else SaveStep(v, CardGroup, cards, rows)
  }

  /** The skip mark while creating a card is refused and the conversation stays at the image step. */
  lemma SkipImageWhileCreatingRefused(v: Session, cards: seq<Card>, rows: seq<Player>)
    requires v.state == Some(CardImage) && v.itemForChange.None?
    ensures ImageStep(v, Text("."), cards, rows) == WizardResult(v, cards, rows, Rejected)
  {
  }

  /** The image filter compares the whole text: any other text, a padded skip mark included, is not handled. */
  lemma ImageFilterExact(v: Session, t: string, cards: seq<Card>, rows: seq<Player>)
    requires t != "."
    ensures ImageStep(v, Text(t), cards, rows) == WizardResult(v, cards, rows, Unhandled)
  {
  }

  /** The skip mark at the image step of an edit raises: the stored row is an object, not a dictionary. */
  lemma SkipImageRaises(v: Session, cards: seq<Card>, rows: seq<Player>)
    requires v.state == Some(CardImage) && v.itemForChange.Some?
    ensures ImageStep(v, Text("."), cards, rows) == WizardResult(v, cards, rows, Raised(TypeError))
  {
  }

  /**
   * In the older copy, the skip mark while creating a card reaches
   * save_entity with no image stored: the KeyError is caught, nothing is
   * written and everything typed so far is dropped.
   */
  lemma LegacySkipImageLosesCard(v: Session, cards: seq<Card>, rows: seq<Player>)
    requires v.state == Some(CardImage) && v.itemForChange.None? && v.image.None?
    ensures ImageStepLegacy(v, Text("."), cards, rows) == WizardResult(EmptySession, cards, rows, Caught(KeyError))
  {
  }

  method ImageInput(ctx: FsmContext, msg: Message, cardTable: CardTable, playerTable: PlayerTable) returns (o: Outcome)
    modifies ctx, cardTable, playerTable
    ensures var r := ImageStep(old(ctx.View()), msg, old(cardTable.cards), old(playerTable.rows));
      ctx.View() == r.session && cardTable.cards == r.cards && playerTable.rows == r.rows && o == r.outcome
  {
    if !(ctx.state == Some(CardImage) && (msg.Photo? || msg == Text("."))) {
      return Unhandled;
    }
    if msg.Photo? {
      ctx.image := Some(msg.fileId);
    } else if ctx.itemForChange.Some? {
      return Raised(TypeError);
    } else {
      return Rejected;
    }
    o := SaveEntity(ctx, CardGroup, cardTable, playerTable);
  }

  method ImageInputLegacy(ctx: FsmContext, msg: Message, cardTable: CardTable, playerTable: PlayerTable) returns (o: Outcome)
    modifies ctx, cardTable, playerTable
    ensures var r := ImageStepLegacy(old(ctx.View()), msg, old(cardTable.cards), old(playerTable.rows));
      ctx.View() == r.session && cardTable.cards == r.cards && playerTable.rows == r.rows && o == r.outcome
  {
    if !(ctx.state == Some(CardImage) && (msg.Photo? || msg == Text("."))) {
      return Unhandled;
    }
    if msg.Photo? {
      ctx.image := Some(msg.fileId);
    } else if ctx.itemForChange.Some? {
      return Raised(AttributeError);
    }
    o := SaveEntity(ctx, CardGroup, cardTable, playerTable);
  }

  // ---------------------------------------------------------------------------
  // The skip mark as intended: keep the edited row's current value

  function ItemName(item: Option<Item>): Option<string> {
    match item
    case Some(CardRow(c)) => Some(c.name)
    case Some(PlayerRow(p)) => Some(p.name)
    case _ => None
  }

  function ItemImage(item: Option<Item>): Option<string> {
    match item
    case Some(CardRow(c)) => Some(c.image)
    case _ => None
  }

  /** The name step with the skip mark reading the row's `name` attribute. */
  function NameInputStepFixed(v: Session, msg: Message, cards: seq<Card>, rows: seq<Player>): (r: WizardResult)
    ensures !r.outcome.Raised?
    ensures msg.Text? && Strip(msg.text) != "." ==> r == NameInputStep(v, msg, cards, rows)
    ensures InNameState(v) && msg.Text? && Strip(msg.text) == "." && ItemName(v.itemForChange).Some? ==>
      r == AfterName(v, ItemName(v.itemForChange).value, cards, rows)
  {
    if msg.Text? && InNameState(v) && Strip(msg.text) == "." then
      match ItemName(v.itemForChange)
      case Some(n) => AfterName(v, n, cards, rows)
      case None => WizardResult(v, cards, rows, Rejected)
    else NameInputStep(v, msg, cards, rows)
  }

  /** The image step with the skip mark reading the row's `image` attribute. */
  function ImageStepFixed(v: Session, msg: Message, cards: seq<Card>, rows: seq<Player>): (r: WizardResult)
    ensures !r.outcome.Raised?
    ensures msg.Photo? ==> r == ImageStep(v, msg, cards, rows)
    ensures ImageAccepted(v, msg) && msg.Text? && ItemImage(v.itemForChange).Some? ==>
      r == SaveStep(v.(image := ItemImage(v.itemForChange)), CardGroup, cards, rows)
  {
    if ImageAccepted(v, msg) && msg.Text? then
      match ItemImage(v.itemForChange)
      case Some(i) => SaveStep(v.(image := Some(i)), CardGroup, cards, rows)
      case None => WizardResult(v, cards, rows, Rejected)
    else ImageStep(v, msg, cards, rows)
  }

  /** Replacing a card by itself under its own, unique, name changes nothing. */
  lemma {:induction false} ReplaceCardBySelf(cards: seq<Card>, c: Card)
    requires forall d :: d in cards && d.name == c.name ==> d == c
    ensures ReplaceCard(cards, c.name, c) == cards
  {
    if cards != [] {
      ReplaceCardBySelf(cards[1..], c);
    }
  }

  /** The session of an edit of card c, as start_edit_card leaves it. */
  predicate EditingCard(v: Session, c: Card) {
    v.itemForChange == Some(CardRow(c)) && v.originalKey == Some(c.name)
  }

  /**
   * With the intended skip, skipping both steps of a card edit saves the
   * card unchanged and ends the conversation.
   */
  lemma SkipBothKeepsCard(v: Session, c: Card, skip: string, cards: seq<Card>, rows: seq<Player>)
    requires v.state == Some(CardName) && EditingCard(v, c) && Strip(skip) == "."
    requires c in cards && DistinctCardNames(cards)
    ensures var afterName := NameInputStepFixed(v, Text(skip), cards, rows);
      && afterName.outcome == Done
      && var afterImage := ImageStepFixed(afterName.session, Text("."), afterName.cards, afterName.rows);
      afterImage == WizardResult(EmptySession, cards, rows, Done)
  {
    var afterName := NameInputStepFixed(v, Text(skip), cards, rows);
    assert afterName.session == v.(name := Some(c.name), state := Some(CardImage));
    forall d | d in cards && d.name == c.name
      ensures d == c
    {
      var i :| 0 <= i < |cards| && cards[i] == d;
      var j :| 0 <= j < |cards| && cards[j] == c;
      assert i == j;
    }
    ReplaceCardBySelf(cards, c);
  }

  // ---------------------------------------------------------------------------
  // Entering the wizard

  /** add_card / add_new_player: a fresh conversation in the group's first state. */
  method StartCreate(ctx: FsmContext, group: Group)
    modifies ctx
    ensures ctx.View() == EmptySession.(state := Some(GroupStates(group)[0]))
  {
    ctx.Clear();
    ctx.state := Some(GroupStates(group)[0]);
  }

  /** `callback.data.split("_")[-1]`: the text after the last underscore. */
  function LastSegment(s: string): (r: string)
    ensures '_' !in r
    ensures |r| <= |s| && r == s[|s| - |r|..]
    ensures |r| < |s| ==> s[|s| - |r| - 1] == '_'
  {
    if s == [] then []
    else if s[|s| - 1] == '_' then []
    else LastSegment(s[..|s| - 1]) + [s[|s| - 1]]
  }

  const EditCardPrefix: string := "change-card_"

  /** A card name without an underscore comes back out of its edit button's data. */
  lemma {:induction false} LastSegmentOfPlainName(name: string)
    requires '_' !in name
    ensures LastSegment(EditCardPrefix + name) == name
  {
    LastSegmentOfSuffix(EditCardPrefix, name);
  }

  lemma {:induction false} LastSegmentOfSuffix(prefix: string, name: string)
    requires prefix != [] && prefix[|prefix| - 1] == '_' && '_' !in name
    ensures LastSegment(prefix + name) == name
  {
    var s := prefix + name;
    if name == [] {
      assert s == prefix;
    } else {
      assert s[..|s| - 1] == prefix + name[..|name| - 1];
      LastSegmentOfSuffix(prefix, name[..|name| - 1]);
      assert name[..|name| - 1] + [name[|name| - 1]] == name;
    }
  }

  /** A card name holding an underscore does not: only its last part is looked up. */
  lemma LastSegmentOfUnderscoredName()
    ensures LastSegment(EditCardPrefix + "T_72") == "72"
  {
    var prefix := EditCardPrefix + "T_";
    assert prefix[|prefix| - 1] == '_';
    assert EditCardPrefix + "T_72" == prefix + "72";
    LastSegmentOfSuffix(prefix, "72");
  }

  /** The intended key: the button data with its prefix removed, as the delete buttons read theirs. */
  function EditKey(callbackData: string): (r: string)
    requires EditCardPrefix <= callbackData
    ensures EditCardPrefix + r == callbackData
  {
    callbackData[|EditCardPrefix|..]
  }

  /**
   * Save branches on the truthiness of `item_for_change`: when the edit button's key
   * finds no card, the edit is saved as the creation of a new card.
   */
  lemma UnfoundEditKeyCreates(v: Session, cards: seq<Card>, rows: seq<Player>, key: string, name: string, image: string)
    requires forall c :: c in cards ==> c.name != key
    ensures var started := StartEditCardStep(v, cards, key);
      var r := SaveStep(started.(name := Some(name), image := Some(image)), CardGroup, cards, rows);
      && (r.outcome == Done <==> forall c :: c in cards ==> c.name != name)
      && (r.outcome == Done ==> r.cards == cards + [Card(name, image)])
  {
    var started := StartEditCardStep(v, cards, key);
    SaveCreatesCard(started.(name := Some(name), image := Some(image)), cards, rows);
  }

  /** Every card name, underscores included, comes back out of its edit button's data. */
  lemma EditKeyRoundTrip(name: string)
    ensures EditKey(EditCardPrefix + name) == name
  {
    assert (EditCardPrefix + name)[|EditCardPrefix|..] == name;
  }

  /** start_edit_card, given the card that the key found, if any. */
  function StartEditCardStep(v: Session, cards: seq<Card>, key: string): (s: Session)
    ensures s.state == Some(CardName) && s.originalKey == Some(key)
    ensures s.itemForChange.Some? && (s.itemForChange.value.Truthy() <==> exists c :: c in cards && c.name == key)
    ensures s.itemForChange.value.CardRow? || s.itemForChange.value.NoRow?
    ensures s.itemForChange.value.CardRow? ==> s.itemForChange.value.card in cards && s.itemForChange.value.card.name == key
    ensures s == v.(state := s.state, itemForChange := s.itemForChange, originalKey := s.originalKey)
  {
    var found := FindCard(cards, key);
    v.(itemForChange := Some(if found.Some? then CardRow(found.value) else NoRow), originalKey := Some(key), state := Some(CardName))
  }

  /** start_edit_card (handlers/admin/cards.py and handlers/admin_private.py). */
  method StartEditCard(ctx: FsmContext, cardTable: CardTable, callbackData: string)
    requires EditCardPrefix <= callbackData
    modifies ctx
    ensures ctx.View() == StartEditCardStep(old(ctx.View()), cardTable.cards, LastSegment(callbackData))
  {
    ghost var v := ctx.View();
    var name := LastSegment(callbackData);
    var card := FindCard(cardTable.cards, name);
    var item := if card.Some? then CardRow(card.value) else NoRow;
    ctx.itemForChange := Some(item);
    ctx.originalKey := Some(name);
    ctx.state := Some(CardName);
    assert ctx.View() == v.(itemForChange := Some(item), originalKey := Some(name), state := Some(CardName));
  }
}
