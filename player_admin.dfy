/**
 * The player-card buttons (handlers/admin/players.py and the older copy in
 * handlers/admin_private.py): the status toggle, and the two ways a rename
 * is started — the current one, which hands the row to the wizard through
 * the conversation data, and the older one, which parks it in class
 * attributes the wizard never reads.
 */
module PlayerAdmin {
  import opened Common
  import opened OrmQuery
  import opened Fsm
  import opened Wizard

  // ---------------------------------------------------------------------------
  // The status toggle

  /** `2 if statuses_id == 1 else 1`. */
  function ToggledStatus(status: int): (r: int)
    ensures r == StatusLeave <==> status == StatusNormal
    ensures r != StatusLeave ==> r == StatusNormal
  {
    if status == StatusNormal then StatusLeave else StatusNormal
  }

  /** Toggling twice gives back a normal or on-leave status; an escalated player comes back as normal. */
  lemma ToggleTwice(status: int)
    ensures status == StatusNormal || status == StatusLeave ==> ToggledStatus(ToggledStatus(status)) == status
    ensures status == StatusEscalated ==> ToggledStatus(status) == StatusNormal
  {
  }

  datatype TableStep = TableStep(rows: seq<Player>, outcome: Outcome)

  /**
   * change_player_status: the first row with the name decides the new
   * status, and every row with the name receives it.
   */
  function ToggleStep(rows: seq<Player>, name: string): (r: TableStep)
    ensures r.outcome == Rejected <==> forall i :: 0 <= i < |rows| ==> rows[i].name != name
    ensures r.outcome != Rejected ==> r.outcome == Done
    ensures |r.rows| == |rows|
    ensures forall i :: 0 <= i < |rows| && rows[i].name != name ==> r.rows[i] == rows[i]
    ensures r.outcome == Done ==> forall i :: 0 <= i < |rows| && rows[i].name == name ==>
      r.rows[i] == WithStatus(rows[i], ToggledStatus(FindPlayer(rows, name).value.statusId))
  {
    match FindPlayer(rows, name)
    case None => TableStep(rows, Rejected)
    case Some(p) => TableStep(UpdateWhere(rows, [name], SetStatus(ToggledStatus(p.statusId))), Done)
  }

  /**
   * For a player listed once, the toggle swaps normal and on-leave, keeps
   * the count, and resets the direction when the player comes back from leave.
   */
  lemma ToggleSinglePlayer(rows: seq<Player>, i: int)
    requires 0 <= i < |rows|
    requires forall j :: 0 <= j < |rows| && j != i ==> rows[j].name != rows[i].name
    ensures var after := ToggleStep(rows, rows[i].name).rows[i];
      && after.name == rows[i].name && after.count == rows[i].count
      && after.statusId == ToggledStatus(rows[i].statusId)
      && (rows[i].statusId == StatusLeave ==> after.directionId == DirectionReset)
      && (rows[i].statusId != StatusLeave ==> after.directionId == rows[i].directionId)
  {
    assert FindPlayer(rows, rows[i].name) == Some(rows[i]);
  }

  /**
   * With the name listed twice, the first row decides: both rows receive the
   * toggle of the first row's status, whatever the second row's status was.
   */
  lemma ToggleFollowsFirstRow(rows: seq<Player>, i: int, j: int)
    requires 0 <= i < j < |rows| && rows[i].name == rows[j].name
    requires forall k :: 0 <= k < i ==> rows[k].name != rows[i].name
    ensures var after := ToggleStep(rows, rows[i].name).rows;
      after[i].statusId == ToggledStatus(rows[i].statusId) && after[j].statusId == ToggledStatus(rows[i].statusId)
  {
    var p := FindPlayer(rows, rows[i].name).value;
    var m :| 0 <= m < |rows| && rows[m] == p && forall k :: 0 <= k < m ==> rows[k].name != rows[i].name;
    assert m == i;
  }

  method ToggleStatus(table: PlayerTable, name: string) returns (o: Outcome)
    modifies table
    ensures table.rows == ToggleStep(old(table.rows), name).rows
    ensures o == ToggleStep(old(table.rows), name).outcome
  {
    var player := FindPlayer(table.rows, name);
    if player.None? {
      return Rejected;
    }
    table.ChangeStatus(name, ToggledStatus(player.value.statusId));
    o := Done;
  }

  // ---------------------------------------------------------------------------
  // Starting a rename: handlers/admin/players.py

  /** change_player_name of handlers/admin/players.py: the row and its name go into the conversation data. */
  function StartEditPlayerStep(v: Session, rows: seq<Player>, name: string): (r: Step)
    ensures r.outcome == Rejected <==> forall i :: 0 <= i < |rows| ==> rows[i].name != name
    ensures r.outcome == Rejected ==> r.session == v
    ensures r.outcome != Rejected ==>
      r.outcome == Done && r.session.state == Some(UserName) && Editing(r.session) && r.session.originalKey == Some(name)
    ensures r.outcome == Done ==>
      && r.session == v.(itemForChange := r.session.itemForChange, originalKey := Some(name), state := Some(UserName))
      && exists i :: 0 <= i < |rows| && rows[i].name == name && (forall k :: 0 <= k < i ==> rows[k].name != name)
           && r.session.itemForChange == Some(PlayerRow(rows[i]))
  {
    match FindPlayer(rows, name)
    case None => Step(v, Rejected)
    case Some(p) => Step(v.(itemForChange := Some(PlayerRow(p)), originalKey := Some(name), state := Some(UserName)), Done)
  }

  method StartEditPlayer(ctx: FsmContext, table: PlayerTable, name: string) returns (o: Outcome)
    modifies ctx
    ensures ctx.View() == StartEditPlayerStep(old(ctx.View()), table.rows, name).session
    ensures o == StartEditPlayerStep(old(ctx.View()), table.rows, name).outcome
  {
    var player := FindPlayer(table.rows, name);
    if player.None? {
      return Rejected;
    }
    ctx.itemForChange := Some(PlayerRow(player.value));
    ctx.originalKey := Some(name);
    ctx.state := Some(UserName);
    o := Done;
  }

  /**
   * The current rename flow: after the button, a valid new name renames
   * every row under the old name and adds none.
   */
  lemma PackageRenameRenames(v: Session, rows: seq<Player>, cards: seq<Card>, oldName: string, text: string)
    requires exists i :: 0 <= i < |rows| && rows[i].name == oldName
    requires Strip(text) != "." && CheckedName(text).Some?
    ensures var started := StartEditPlayerStep(v, rows, oldName).session;
      var r := NameInputStep(started, Text(text), cards, rows);
      && r.outcome == Done
      && r.rows == UpdateWhere(rows, [oldName], Rename(Strip(text)))
      && |r.rows| == |rows|
      && r.session == EmptySession
  {
    var started := StartEditPlayerStep(v, rows, oldName).session;
    SavePlayer(started.(name := Some(Strip(text))), cards, rows);
  }

  // ---------------------------------------------------------------------------
  // Starting a rename: handlers/admin_private.py

  /** The attributes the older rename handler sets on the AddUser state group, shared by every conversation. */
  class AddUserAttrs {
    var userForChange: Option<Player>
    var playerName: Option<string>

    constructor ()
      ensures userForChange.None? && playerName.None?
    {
      userForChange, playerName := None, None;
    }
  }

  /** The older change_player_name: the session only enters `AddUser:name`. */
  function StartRenameLegacyStep(v: Session, rows: seq<Player>, name: string): (r: Step)
    ensures r.outcome == Rejected <==> forall i :: 0 <= i < |rows| ==> rows[i].name != name
    ensures r.outcome == Rejected ==> r.session == v
    ensures r.outcome != Rejected ==> r.outcome == Done && r.session == v.(state := Some(UserName))
  {
    match FindPlayer(rows, name)
    case None => Step(v, Rejected)
    case Some(_) => Step(v.(state := Some(UserName)), Done)
  }

  method StartRenameLegacy(ctx: FsmContext, attrs: AddUserAttrs, table: PlayerTable, name: string) returns (o: Outcome)
    modifies ctx, attrs
    ensures ctx.View() == StartRenameLegacyStep(old(ctx.View()), table.rows, name).session
    ensures o == StartRenameLegacyStep(old(ctx.View()), table.rows, name).outcome
    ensures o == Done ==> attrs.userForChange == FindPlayer(table.rows, name) && attrs.playerName == Some(name)
    ensures o != Done ==> attrs.userForChange == old(attrs.userForChange) && attrs.playerName == old(attrs.playerName)
  {
    var player := FindPlayer(table.rows, name);
    if player.None? {
      return Rejected;
    }
    attrs.userForChange := player;
    attrs.playerName := Some(name);
    ctx.state := Some(UserName);
    o := Done;
  }

  /**
   * The older rename flow: the wizard finds no row in the conversation data,
   * so a valid new name creates another player and the old row stays.
   */
  lemma LegacyRenameAppends(v: Session, rows: seq<Player>, cards: seq<Card>, oldName: string, text: string)
    requires exists i :: 0 <= i < |rows| && rows[i].name == oldName
    requires v.itemForChange.None?
    requires CheckedName(text).Some?
    ensures var started := StartRenameLegacyStep(v, rows, oldName).session;
      var r := NameInputStepLegacy(started, Text(text), cards, rows);
      && r.outcome == Done
      && r.rows == rows + [NewPlayer(Strip(text))]
      && |r.rows| == |rows| + 1
  {
    var started := StartRenameLegacyStep(v, rows, oldName).session;
    SavePlayer(started.(name := Some(Strip(text))), cards, rows);
  }
}
