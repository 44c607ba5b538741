# Activity-control bot: a Dafny model of its administrator logic

This Telegram bot tracks how active the players of a gaming club are. An
administrator uses it to run the following workflows:

- **Activity control.** The administrator types the names of the players who
  were active, reviews the list and may drop entries by index. On confirmation,
  every other eligible player's miss counter goes up by one, possibly
  escalating that player's status. Every active player's counter goes down by
  one and never goes below zero.
- **Create/edit wizard.** A generic wizard creates and edits cards (name, then
  image) and players (name only).
- **Cancel and back.** These commands work in any state.
- **Status toggle.** A player can be switched between "normal" and "on leave".

Every handler appears twice, and both copies are modelled:

- the current package `handlers/admin/`;
- the older single file `handlers/admin_private.py`.

The conversation state of the chat framework is the class `Fsm.FsmContext`:

- its current state name;
- one field per key of its data dictionary (`None` is a missing key).

The roster and the card table are classes holding sequences. Each handler is
an imperative method on those objects. Each method is proved equal to a pure
step function on the session value. The properties of the workflows are stated
and proved about the step functions.

Modules:

- `Common` (common.dfy) holds:
  - the Python string operations the handlers rely on: `str.strip`,
    `str.casefold` on the letters of the command words, and `int()` on a
    decimal string;
  - the `^\d+$` message filter;
  - the command filter.
- `OrmQuery` (orm_query.dfy) holds:
  - the per-row rules of the UPDATE statements;
  - "update every row whose name is listed";
  - the queries;
  - the players, cards and reference tables.
- `Fsm` (fsm_context.dfy) holds the conversation state and the outcomes of a
  handler:
  - the filters did not match;
  - the change was made;
  - nothing happened;
  - the input was refused;
  - an exception was raised;
  - an exception was caught and reported.
- `Controls` (controls.dfy) is the activity-control session of both copies.
- `Wizard` (wizard.dfy) holds:
  - cancel and back;
  - the name and image steps;
  - `save_entity`;
  - the entry points into the wizard.
- `PlayerAdmin` (player_admin.dfy) holds:
  - the status toggle;
  - the two ways a rename is started.
- `Scenarios` (scenarios.dfy) holds whole conversations on concrete tables.

## Model

| member | source | states |
|---|---|---|
| `Common.Strip` | handlers/admin/fsm.py:66 | the stripped text is no longer than the input and has no whitespace at either end |
| `Common.StripSlice` | handlers/admin_private.py:340 | the stripped text is the slice of the input that follows its leading whitespace, with only whitespace on either side of it |
| `Common.StripPadded` | handlers/admin_private.py:340 | stripping any whitespace padding around a text with no whitespace at its ends gives back that text |
| `Common.StripIdempotent` | handlers/admin/fsm.py:59-66 | stripping twice is stripping once |
| `Common.CaseFold` | handlers/admin/fsm.py:25 | case folding keeps the length and folds each character on its own |
| `Common.NatToString` | handlers/admin/controls.py:85-86 | an index is shown as a non-empty run of digits, without a leading zero, whose value is the index; 0 is shown as "0" |
| `Common.RenderedIndexParses` | handlers/admin/controls.py:101 | `int()` of a shown index gives back that index |
| `Common.NegatedIndexParses` | handlers/admin/controls.py:101 | `int()` reads a minus sign before digits as a negative number |
| `Common.ParseStripped` | handlers/admin/controls.py:101 | `int()` of a stripped text succeeds only when it starts with a digit or a sign, and gives a negative number only after "-" |
| `Common.ParsePyIntNeedsDigit` | handlers/admin/controls.py:101 | `int()` raises ValueError on every text that holds no decimal digit |
| `Common.DigitPatternNarrowerThanInt` | handlers/admin_private.py:510-512 | the `^\d+$` filter refuses digits after a space or after "+", which `int()` reads as the same number |
| `Common.CommandTakesArguments` | handlers/admin_private.py:304 | the command filter takes the command word followed by a space and any arguments |
| `Common.OneWordCommand` | handlers/admin_private.py:304 | a one-word text passes the command filter exactly when it is "/" and the command, letter case included |
| `Common.DigitPatternParses` | handlers/admin_private.py:510-512 | every text the `^\d+$` filter lets through parses under `int()` to a non-negative number |
| `OrmQuery.Incremented` | database/orm_query.py:120-130 | the increment adds one to the count, escalates the status exactly when the old count is at least 3 or the player was already escalated, keeps any other status, and sets the direction to up |
| `OrmQuery.Decremented` | database/orm_query.py:136-149 | the decrement keeps the name and status; it lowers a positive count by one and sets the direction to down, and clamps a zero count at zero and resets the direction |
| `OrmQuery.WithStatus` | database/orm_query.py:174-184 | the status change writes the new status, keeps the count, and resets the direction only when the old status was "on leave" |
| `OrmQuery.UpdateWhere` | database/orm_query.py:120-125 | an UPDATE over a name list applies the rule to every row whose name is listed, leaves every other row as it was, and keeps the table's length |
| `OrmQuery.UpdateKeepsCountsNonNegative` | database/orm_query.py:143-145 | no update rule makes a non-negative count negative |
| `OrmQuery.IncrementEscalation` | database/orm_query.py:126-128 | an increment never lowers an escalated status; on a listed row it escalates exactly when the new count exceeds 3 or the row was already escalated |
| `OrmQuery.EligibleNames` | database/orm_query.py:190-193 | the snapshot holds every status-1 row's name, and only names of status-1 rows |
| `OrmQuery.EligibleNamesAppend` | database/orm_query.py:190-193 | the snapshot keeps table order, because it distributes over a split of the table |
| `OrmQuery.PlayersWithStatus` | database/orm_query.py:164-171 | the report query returns every row when no status is given, and otherwise exactly the rows with that status, in table order and each as many times as it occurs |
| `OrmQuery.PlayersWithStatusAppend` | database/orm_query.py:164-171 | filtering two tables joined end to end gives the two filtered parts joined in the same order |
| `OrmQuery.FindPlayer` | database/orm_query.py:155-158 | the lookup returns None exactly when no row has the name; otherwise it returns the first row with that name |
| `OrmQuery.FindCard` | database/orm_query.py:83-86 | the card lookup returns None exactly when no card has the name; otherwise it returns a card with that name |
| `OrmQuery.ReplaceCard` | database/orm_query.py:64-74 | the card update replaces every card stored under the key and keeps the others |
| `OrmQuery.Seeded` | database/orm_query.py:35-41 | seeding leaves a non-empty table as it is and fills an empty one with the categories |
| `OrmQuery.SeedIdempotent` | database/orm_query.py:44-50 | seeding a second time changes nothing |
| `OrmQuery.PlayerTable.AddPlayer` | database/orm_query.py:97-105 | adding a player appends one row with count 0, direction 1 and status 1 |
| `OrmQuery.PlayerTable.ChangePlayer` | database/orm_query.py:108-116 | a rename changes only the name, and only on rows under the old name |
| `OrmQuery.PlayerTable.UpdatePlus` | database/orm_query.py:120-133 | the table after the increment is the increment rule over the listed names; non-negative counts stay non-negative |
| `OrmQuery.PlayerTable.UpdateMinus` | database/orm_query.py:136-152 | the table after the decrement is the clamped rule over the listed names; non-negative counts stay non-negative |
| `OrmQuery.PlayerTable.ChangeStatus` | database/orm_query.py:174-187 | the table after a status change is the status rule on the rows with that name |
| `OrmQuery.CardTable.AddCard` | database/orm_query.py:55-61 | a card is added exactly when its name is new; a duplicate is the unique-name violation and leaves the table as it was |
| `OrmQuery.CardTable.UpdateCard` | database/orm_query.py:64-74 | a card update is written exactly when the names stay distinct; otherwise the table is unchanged |
| `OrmQuery.CategoryTable.Seed` | database/orm_query.py:35-50 | the statuses or directions table after seeding is the seeded table |
| `Fsm.FsmContext.Clear` | handlers/admin/fsm.py:124 | `state.clear()` leaves no state and no data |
| `Controls.AddOnce` | handlers/admin/controls.py:57-60 | adding a name puts it in the selection once; a selection without duplicates keeps none; an already selected name changes nothing |
| `Controls.AddOnceIdempotent` | handlers/admin/controls.py:58 | adding the same name twice is adding it once |
| `Controls.RemoveAt` | handlers/admin/controls.py:106 | popping index i removes exactly entry i and keeps the other entries in order; a duplicate-free selection no longer holds the removed name |
| `Controls.RemoveUndoesAdd` | handlers/admin/controls.py:59-106 | popping the entry just appended restores the selection |
| `Controls.Without` | handlers/admin/controls.py:81 | the result holds exactly the snapshot names that are not selected |
| `Controls.WithoutAppend` | handlers/admin/controls.py:81 | the result keeps snapshot order, because it distributes over a split of the snapshot |
| `Controls.WithoutNothing` | handlers/admin/controls.py:81 | with nothing selected, the result is the whole snapshot |
| `Controls.InvariantPartitions` | handlers/admin/controls.py:81-95 | in state `id`, the selection and the stored result are disjoint and together cover the snapshot |
| `Controls.EmptySessionInvariant` | handlers/admin/controls.py:128 | the cleared session satisfies the session invariant |
| `Controls.StartStep` | handlers/admin/controls.py:29-39 | start stores the snapshot of the status-1 names and an empty selection and result, enters `name`, keeps every other key of the data, and establishes the invariant |
| `Controls.AddStep` | handlers/admin/controls.py:51-69 | a text in state `name` is accepted exactly when it is a snapshot name; the selection then gains it once and nothing else changes; a name outside the snapshot is refused, a missing snapshot key raises KeyError, and both change nothing; the invariant is kept |
| `Controls.ShowStep` | handlers/admin/controls.py:73-95 | the "+" button, in any state, stores the complement of the selection and enters `id`; when the selection is drawn from the snapshot the two partition it; the invariant is kept |
| `Controls.RemoveIndexStep` | handlers/admin/controls.py:105-116 | an index in range pops that entry and returns to `name`; any other index is refused and changes nothing; the invariant is kept |
| `Controls.RemoveStep` | handlers/admin/controls.py:99-116 | every event in state `id` goes through `int()`: a photo or a non-numeric text raises; a text `int()` accepts removes exactly the entry at that index; only a removal changes the session |
| `Controls.RemoveStepLegacy` | handlers/admin_private.py:510-528 | only texts matching `^\d+$` are handled, nothing raises, such a text removes the entry at the index it spells, as the newer handler does; only a removal changes the session |
| `Controls.ZeroPaddedIndexRemovesEntry` | handlers/admin_private.py:510-528 | an index written with a leading zero is handled the same way by both copies and removes that entry |
| `Controls.RemoveVariantsAgree` | handlers/admin_private.py:510-512 | the two copies of the removal agree on every text the older copy's filter admits |
| `Controls.NegativeIndexRejected` | handlers/admin/controls.py:101-116 | a negative index is parsed and then refused, and changes nothing |
| `Controls.ShownIndexRemovesEntry` | handlers/admin/controls.py:85-107 | the index shown next to an entry removes exactly that entry, in both copies |
| `Controls.PerformStep` | handlers/admin/controls.py:120-128 | perform runs only in state `id`; a missing result key raises KeyError before any update; a missing selection key raises KeyError after the rows of the result were incremented; success clears the session |
| `Controls.PerformKeepsCountsNonNegative` | handlers/admin/controls.py:125-126 | no control makes a count negative |
| `Controls.PerformEffect` | handlers/admin_private.py:532-538 | after a control, a selected player got the decrement rule, any other snapshot player got the increment rule, and every other row is untouched |
| `Controls.StartControl` | handlers/admin/controls.py:29-39 | the handler leaves the session of the start step |
| `Controls.AddPlayer` | handlers/admin/controls.py:51-69 | the handler leaves the session and outcome of the add step |
| `Controls.ShowSelected` | handlers/admin/controls.py:73-95 | the handler leaves the session of the show step |
| `Controls.RemoveIndex` | handlers/admin/controls.py:102-116 | the range check and pop leave the session and outcome of the removal step |
| `Controls.RemovePlayer` | handlers/admin/controls.py:99-116 | the handler leaves the session and outcome of the package removal step |
| `Controls.RemovePlayerLegacy` | handlers/admin_private.py:510-528 | the handler leaves the session and outcome of the older removal step |
| `Controls.PerformControl` | handlers/admin/controls.py:120-129 | the handler leaves the session, table and outcome of the perform step |
| `Wizard.GroupStates` | handlers/admin_private.py:283-298 | each group's states are among the listed wizard states |
| `Wizard.GroupsOfStates` | handlers/admin_private.py:338 | `GroupOf`, the test on the name prefix, puts both card states in the card group and the player state in the player group |
| `Wizard.CancelStep` | handlers/admin/fsm.py:25-29 | cancel ends the conversation exactly when a state is set; without one the handler does nothing and raises nothing |
| `Wizard.BareCommand` | handlers/admin_private.py:304 | the command filter takes the bare command word |
| `Wizard.CancelWordsAccepted` | handlers/admin_private.py:304-305 | both copies take "Отмена" in any letter case and the bare "/отмена" command |
| `Wizard.CancelCommandWithArguments` | handlers/admin_private.py:304-305 | "/отмена" followed by arguments cancels in the older copy and is not handled by the newer one |
| `Wizard.CancelCommandCaseFolded` | handlers/admin/fsm.py:25 | "/ОТМЕНА" cancels in the newer copy, which folds the case of the whole text, and not in the older one |
| `Wizard.Cancel` | handlers/admin/fsm.py:25-29 | the handler leaves the cancel step's session under the case-folded filter |
| `Wizard.CancelLegacy` | handlers/admin_private.py:304-309 | the handler leaves the cancel step's session under the command or case-folded filter |
| `Wizard.CancelWith` | handlers/admin/fsm.py:27-29 | the body of cancel leaves the cancel step's session |
| `Wizard.BackTargetOf` | handlers/admin/fsm.py:38-50 | back finds nothing exactly when the state is not listed, reports "already first" exactly when its first occurrence is the head of the list, and otherwise moves to the entry just before that first occurrence |
| `Wizard.FindPrevious` | handlers/admin/fsm.py:39-50 | the loop that carries `previous` returns the search's answer, and when it moves, the entry just before the first occurrence of the state |
| `Wizard.BackWordsAccepted` | handlers/admin_private.py:312-313 | both copies take "Назад" in any letter case and the bare "/назад" command |
| `Wizard.BackCommandWithArguments` | handlers/admin_private.py:312-313 | "/назад" followed by arguments goes back in the older copy and is not handled by the newer one |
| `Wizard.BackStep` | handlers/admin/fsm.py:32-50 | back moves to the previous listed state exactly when there is one; it answers "already on the first step" exactly when the state heads the list; with no state or an unlisted state it does nothing; only a move changes the session |
| `Wizard.Back` | handlers/admin/fsm.py:32-50 | the handler leaves the back step's session under the case-folded filter |
| `Wizard.BackLegacy` | handlers/admin_private.py:312-331 | the handler leaves the back step's session under the command or case-folded filter |
| `Wizard.BackWith` | handlers/admin/fsm.py:34-50 | the body of back leaves the back step's session |
| `Wizard.BackWithinCards` | handlers/admin_private.py:319-331 | back from the image step goes to the name step; the card name step is the first step |
| `Wizard.BackLeavesUserGroup` | handlers/admin/fsm.py:38 | back from the player name step moves into the card group's image step |
| `Wizard.BackTargetFixed` | handlers/admin/fsm.py:38-50 | back restricted to the state's own group always finds the state and never leaves the group |
| `Wizard.BackFixedAgrees` | handlers/admin/fsm.py:38-50 | the group-restricted back agrees with the written one inside the card group and stops at the player step |
| `Wizard.SaveStep` | handlers/admin/fsm.py:98-124 | save always clears the session; a missing name or image key and a duplicate card name are caught and change nothing; saving a player leaves the cards alone, and the reverse; a card edit succeeds exactly when the renamed table has distinct names, and then the card table is that renamed table |
| `Wizard.SaveCreatesCard` | handlers/admin/fsm.py:112-113 | creating a card succeeds exactly when its name is new, and then appends it |
| `Wizard.SaveUpdatesCard` | handlers/admin/fsm.py:106-108 | on a table with distinct names and the original key present, a card edit succeeds exactly when no other card has the new name; it then writes the new name and image into the row under the key and keeps every other row |
| `Wizard.SavePlayer` | handlers/admin/fsm.py:106-115 | saving a player always succeeds; a creation appends a fresh row, an edit renames the rows under the original key |
| `Wizard.SaveEntity` | handlers/admin_private.py:373-397 | the handler leaves the session, tables and outcome of the save step |
| `Wizard.CheckedName` | handlers/admin/fsm.py:66-69 | a name is kept exactly when its stripped text has 3 to 150 characters; what is kept is that stripped text |
| `Wizard.AfterName` | handlers/admin/fsm.py:72-76 | after the name, a card moves to the image step and a player is saved |
| `Wizard.NameInputStep` | handlers/admin/fsm.py:53-76 | ".": raises when an edit row is present and is refused with nothing changed while creating; other texts: refused when the checked name is missing, else the wizard continues with it; refusals and raises change nothing |
| `Wizard.NameInputStepLegacy` | handlers/admin_private.py:335-353 | the older name step never raises; it is refused exactly when the checked name is missing, and otherwise continues with it |
| `Wizard.NameInputVariantsAgree` | handlers/admin_private.py:338-353 | the two copies of the name step agree on every text other than the skip mark |
| `Wizard.PaddedNameStored` | handlers/admin/fsm.py:66-74 | a card name typed with surrounding whitespace is stored without it, and the wizard moves to the image step |
| `Wizard.ShortNameRejected` | handlers/admin/fsm.py:67-69 | a stripped name shorter than 3 characters is refused and changes nothing |
| `Wizard.SkipNameRaises` | handlers/admin/fsm.py:59-61 | any text that strips to the skip mark raises TypeError in an edit and changes nothing |
| `Wizard.NameInput` | handlers/admin/fsm.py:53-76 | the handler leaves the session, tables and outcome of the name step |
| `Wizard.NameInputLegacy` | handlers/admin_private.py:335-353 | the handler leaves the session, tables and outcome of the older name step |
| `Wizard.ImageFilterExact` | handlers/admin/fsm.py:79 | the image filter compares the whole text with "."; any other text, a padded "." included, is not handled and changes nothing |
| `Wizard.ImageStep` | handlers/admin/fsm.py:79-95 | the image step handles only a photo or "." in the image state; a photo is saved with the other data; "." raises TypeError exactly when an edit row is present and is refused otherwise; the player table is untouched |
| `Wizard.ImageStepLegacy` | handlers/admin_private.py:357-369 | the older image step agrees on photos; "." raises AttributeError in an edit and otherwise goes on to exactly the save step with the session as it is |
| `Wizard.SkipImageRaises` | handlers/admin/fsm.py:85-87 | "." at the image step of an edit raises TypeError and changes nothing |
| `Wizard.SkipImageWhileCreatingRefused` | handlers/admin/fsm.py:88-90 | "." while creating a card is refused and the wizard stays at the image step |
| `Wizard.LegacySkipImageLosesCard` | handlers/admin_private.py:361-369 | in the older copy, "." while creating a card ends the conversation with a caught KeyError and writes nothing |
| `Wizard.ImageInput` | handlers/admin/fsm.py:79-95 | the handler leaves the session, tables and outcome of the image step |
| `Wizard.ImageInputLegacy` | handlers/admin_private.py:357-369 | the handler leaves the session, tables and outcome of the older image step |
| `Wizard.NameInputStepFixed` | handlers/admin/fsm.py:59-61 | with the skip mark reading the row's name, the name step never raises, agrees on every other text, and continues with the current name |
| `Wizard.ImageStepFixed` | handlers/admin/fsm.py:85-87 | with the skip mark reading the row's image, the image step never raises, agrees on photos, and saves with the current image |
| `Wizard.SkipBothKeepsCard` | handlers/admin/fsm.py:59-95 | with the intended skip, a name text that strips to "." and then the image text "." save the edited card unchanged and end the conversation |
| `Wizard.StartCreate` | handlers/admin/cards.py:57-63 | starting a creation clears the conversation and enters the group's first step |
| `Wizard.LastSegment` | handlers/admin/cards.py:79 | `split("_")[-1]` is the suffix after the last underscore, and holds no underscore |
| `Wizard.LastSegmentOfPlainName` | handlers/admin_private.py:170 | a card name without an underscore comes back out of its edit button's data |
| `Wizard.LastSegmentOfUnderscoredName` | handlers/admin/cards.py:79 | the card "T_72" is looked up as "72" |
| `Wizard.EditKey` | handlers/admin/cards.py:47 | the key is exactly what follows the edit prefix in the button data |
| `Wizard.UnfoundEditKeyCreates` | handlers/admin/fsm.py:106 | the save branches on the truthiness of the edit row: an edit whose key found no card is saved as a new card, which succeeds exactly when its name is new |
| `Wizard.EditKeyRoundTrip` | handlers/admin/cards.py:47-79 | removing the prefix gives back every card name, underscores included |
| `Wizard.StartEditCardStep` | handlers/admin/cards.py:75-83 | starting a card edit enters the name step with the key as the original key; the row stored is a card row exactly when a card has that name, that card, and otherwise the empty row; nothing else in the session changes |
| `Wizard.StartEditCard` | handlers/admin_private.py:168-174 | the handler leaves the session of the edit-start step for the key after the last underscore |
| `PlayerAdmin.ToggledStatus` | handlers/admin_private.py:253 | the toggle gives "on leave" exactly for a normal player, and "normal" otherwise |
| `PlayerAdmin.ToggleTwice` | handlers/admin/players.py:93 | toggling twice restores a normal or on-leave player; an escalated player becomes normal |
| `PlayerAdmin.ToggleStep` | handlers/admin_private.py:243-256 | an unknown player is refused with no update; otherwise every row with that name takes the status toggled from the first such row, the other rows stay, and the table keeps its length |
| `PlayerAdmin.ToggleFollowsFirstRow` | handlers/admin_private.py:243-256 | two rows sharing a name both take the status toggled from the earlier one |
| `PlayerAdmin.ToggleSinglePlayer` | handlers/admin_private.py:246-254 | for a player listed once, the toggle swaps the status, keeps the count, and resets the direction when the player returns from leave |
| `PlayerAdmin.ToggleStatus` | handlers/admin/players.py:86-95 | the handler leaves the table and outcome of the toggle step |
| `PlayerAdmin.StartEditPlayerStep` | handlers/admin/players.py:68-83 | an unknown player is refused with no change; otherwise the first row with that name and the name go into the data, the wizard's player step begins, and every other key is kept |
| `PlayerAdmin.StartEditPlayer` | handlers/admin/players.py:68-83 | the handler leaves the session and outcome of the edit-start step |
| `PlayerAdmin.PackageRenameRenames` | handlers/admin/players.py:78-80 | after the rename button, a valid new name renames the rows under the old name, adds none, and ends the conversation |
| `PlayerAdmin.StartRenameLegacyStep` | handlers/admin_private.py:226-239 | the older rename start only enters the player step; an unknown player is refused |
| `PlayerAdmin.AddUserAttrs.constructor` | handlers/admin_private.py:235-236 | the class attributes of the state group hold no row and no name until the older rename start writes them |
| `PlayerAdmin.StartRenameLegacy` | handlers/admin_private.py:235-238 | the handler writes the row and name into the shared class attributes, not into the conversation data |
| `PlayerAdmin.LegacyRenameAppends` | handlers/admin_private.py:235-238 | after the older rename start, a valid new name appends a new player and leaves the old row |
| `Scenarios.RosterEligible` | database/orm_query.py:190-193 | the snapshot of the sample roster is A, B, C |
| `Scenarios.OthersThanB` | handlers/admin/controls.py:81 | selecting B leaves A and C, in order |
| `Scenarios.RosterAfterControl` | database/orm_query.py:120-152 | on the sample roster, the increment on A and C and the decrement on B give the expected rows |
| `Scenarios.ControlWithOneActivePlayer` | handlers/admin/controls.py:29-128 | a full control with only B active: A goes 0→1, B goes 3→2 (down), C goes 5→6 and is escalated, and the session ends |
| `Scenarios.UnknownNameRefused` | handlers/admin/controls.py:68-69 | a name outside the snapshot is refused and changes nothing |
| `Scenarios.ControlWithNobodyActive` | handlers/admin/controls.py:81-125 | with nobody selected, every eligible player gets the increment rule |
| `Scenarios.CreateCard` | handlers/admin/fsm.py:53-124 | a padded name followed by a photo appends the card and ends the conversation |
| `Scenarios.TankNamed` | handlers/admin/fsm.py:66-74 | the padded name is stored stripped and the wizard moves to the image step |
| `Scenarios.BackFromImage` | handlers/admin/fsm.py:38-47 | back from the image step returns to the name step and keeps the data |

## Left out

- Message routing is not modelled: the order of the routers, the
  administrator and private-chat filters, and which handler wins when several
  match.
  - A handler whose filter does not match returns the `Unhandled` outcome.
  - In the package, the control router is registered before the wizard
    router, so a control state's catch-all text handlers see "отмена" and
    "назад" before cancel and back do. This is not modelled.
- Message texts and keyboards are not modelled. Neither are the file id taken
  from the largest photo size or callback answers. A photo is an opaque file
  id, and its caption is dropped: the older copy's command filters also read
  a caption, so a photo captioned "/отмена" or "/назад" is not modelled.
- Every update rule reads the old row's values in each of its `case`
  expressions (database/orm_query.py:124-149 and 179-183), as standard SQL,
  SQLite and PostgreSQL do. A database that applies SET assignments left to
  right, such as MySQL, would give other results; that is not modelled.
- Database sessions, commits and transactions are not modelled. Each
  statement is applied to the table as a whole, in sequence. A control issues
  two separate updates, and the model keeps the first one when the second
  raises.
- The row order of a query result is not modelled: `orm_get_player` and
  `orm_get_card` return the first matching row in table order.
- Bot mentions in commands (`/отмена@bot`) are not modelled.
- `str.casefold` is modelled only on ASCII letters and on the Cyrillic capitals
  and their historic variants, not on the full Unicode table.
- `int()` and the `^\d+$` filter are modelled for ASCII digits only. Python also
  accepts other Unicode decimal digits.
- Integer width is not modelled. Counts are unbounded integers, because the
  database column has no stated bound.
- The column length limits are not modelled: 15 characters for a card name,
  150 for an image id.
- `cancel_control` (handlers/admin/controls.py:43-47) filters messages on
  callback data, so it never runs. The control session has no cancel
  transition, and there is no member for it.
- The other handlers of the files are display and delete glue, and are not
  modelled: the card list and card view, the player list and player view,
  reports and deletion. Deletion reports success from a `None` result.
- The edit button of the older card view (handlers/admin_private.py:132) writes
  a Cyrillic "с" into its data, so the older `start_edit_card` is reached only
  by data typed with a Latin "c". `Wizard.StartEditCard` models the handler as
  if it is reached.
- `start_edit_user` (handlers/admin_private.py:271-277) is not modelled: it calls `orm_get_user`, which that file never imports, so every press of its button ends in NameError before any state changes.
- handlers/admin/fsm.py imports its state groups from states/admin_states.py, which is not part of this model. The model takes those groups to be the ones handlers/admin_private.py:283-298 declares: `AddCard` with `name` then `image`, and `AddUser` with `name`. The constant `Wizard.WizardStates` and `Wizard.GroupStates` rest on that assumption.
- The chat framework's storage backends, timeouts and concurrent operators are
  not modelled. One operator's session is modelled sequentially.

## Findings

| source | as written | input that shows it | evidently intended | confidence | as-written member | corrected member |
|---|---|---|---|---|---|---|
| handlers/admin/fsm.py:38 | back searches the card and player states as one list | "назад" in state `AddUser:name` moves to `AddCard:image` | back stays inside the current wizard and reports "already on the first step" | high, not executed | `Wizard.BackLeavesUserGroup` | `Wizard.BackTargetFixed` |
| handlers/admin/fsm.py:61 | the skip mark subscripts the stored ORM row with `["name"]` | "." as the new name while editing a card or a player raises TypeError | "." keeps the current name and image | high, not executed | `Wizard.SkipNameRaises` | `Wizard.SkipBothKeepsCard` |
| handlers/admin/fsm.py:87 | the skip mark at the image step subscripts the stored ORM row with `["image"]` | editing a card, a new name, then "." at the image step raises TypeError | "." keeps the current image | high, not executed | `Wizard.SkipImageRaises` | `Wizard.ImageStepFixed` |
| handlers/admin_private.py:235-236 | the older rename stores the row in class attributes that `save_entity` never reads | rename player "Bob" to "Robert": a second row "Robert" is added and "Bob" stays | the row under the old name is renamed | high, not executed | `PlayerAdmin.LegacyRenameAppends` | `PlayerAdmin.PackageRenameRenames` |
| handlers/admin/cards.py:79 | the card name is taken as the text after the last underscore of the button data | editing card "T_72" looks up card "72" | the prefix is removed, as the delete button's handler does | medium, not executed | `Wizard.LastSegmentOfUnderscoredName` | `Wizard.EditKeyRoundTrip` |
| handlers/admin_private.py:361-365 | "." while creating a card goes on to save without an image | a new card named "T-72", then "." at the image step: KeyError is caught, nothing is saved, the typed name is lost | the skip is refused while creating, as in handlers/admin/fsm.py:88-90 | high, not executed | `Wizard.LegacySkipImageLosesCard` | `Wizard.SkipImageWhileCreatingRefused` |
