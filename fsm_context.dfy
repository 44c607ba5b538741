/**
 * One operator's conversation state as the chat framework keeps it: the
 * current state name and the data dictionary the handlers read and update.
 * Each key of the dictionary the handlers use is a field; None is a missing
 * key, so `data["key"]` on it raises KeyError and `data.get("key", [])`
 * falls back to the default.
 */
module Fsm {
  import opened Common
  import opened OrmQuery

  /** What `item_for_change` holds: the looked-up table row, or Python None when the lookup found nothing. */
  datatype Item = NoRow | CardRow(card: Card) | PlayerRow(player: Player) {
    /** Python truthiness: a row object is true, None is false. */
    predicate Truthy() {
      !NoRow?
    }
  }

  /** The Python exceptions the modelled handlers can raise or catch. */
  datatype PyError = KeyError | ValueError | TypeError | AttributeError | IntegrityError

  /** What a handler did with an event. */
  datatype Outcome =
    | Unhandled        // the handler's filters did not match the event
    | Done             // the handler ran and made its change
    | Ignored          // the handler ran and did nothing
    | Rejected         // the handler refused the input and told the operator so; nothing changed
    | Raised(error: PyError)  // an exception ended the handler
    | Caught(error: PyError)  // the handler caught an exception and reported it

  /** The state and the data together, as a value. */
  datatype Session = Session(
    state: Option<string>,
    allPlayers: Option<seq<string>>,
    selected: Option<seq<string>>,
    result: Option<seq<string>>,
    name: Option<string>,
    image: Option<string>,
    itemForChange: Option<Item>,
    originalKey: Option<string>)

  /** A handler's effect on the session, and what it did. */
  datatype Step = Step(session: Session, outcome: Outcome)

  /** The session after `state.clear()`: no state and no data. */
  const EmptySession: Session := Session(None, None, None, None, None, None, None, None)

  class FsmContext {
    var state: Option<string>
    var allPlayers: Option<seq<string>>
    var selected: Option<seq<string>>
    var result: Option<seq<string>>
    var name: Option<string>
    var image: Option<string>
    var itemForChange: Option<Item>
    var originalKey: Option<string>

    function View(): Session
      reads this
    {
      Session(state, allPlayers, selected, result, name, image, itemForChange, originalKey)
    }

    constructor ()
      ensures View() == EmptySession
    {
      state, allPlayers, selected, result := None, None, None, None;
      name, image, itemForChange, originalKey := None, None, None, None;
    }

    /** `state.clear()`. */
    method Clear()
      modifies this
      ensures View() == EmptySession
    {
      state, allPlayers, selected, result := None, None, None, None;
      name, image, itemForChange, originalKey := None, None, None, None;
    }
  }
}
