/**
 * The players, cards and reference tables and the queries the bot runs on
 * them (database/orm_query.py). Each set-based UPDATE is a rule applied to
 * every row whose name matches; the tables are objects whose row sequences
 * the update methods replace.
 */
module OrmQuery {
  import opened Common

  /** A row of the players table. Names are not unique. */
  datatype Player = Player(name: string, count: int, directionId: int, statusId: int)

  /** A row of the cards table. Names are unique. */
  datatype Card = Card(name: string, image: string)

  // Status ids, in the order the statuses are seeded: normal, on leave, escalated.
  const StatusNormal: int := 1
  const StatusLeave: int := 2
  const StatusEscalated: int := 3

  // Direction ids: reset (new player, clamped decrement, back from leave), up, down.
  const DirectionReset: int := 1
  const DirectionUp: int := 2
  const DirectionDown: int := 3

  /** An increment that leaves the count above this escalates the player. */
  const EscalationThreshold: int := 3

  /** The defaults of a newly added player. */
  function NewPlayer(name: string): Player {
    Player(name, 0, DirectionReset, StatusNormal)
  }

  // ---------------------------------------------------------------------------
  // Per-row rules of the UPDATE statements

  /** The `count + 1` rule: escalates once the new count passes the threshold, marks the move as up. */
  function Incremented(p: Player): (q: Player)
    ensures q.name == p.name && q.count == p.count + 1
    ensures q.statusId == StatusEscalated <==> p.count >= EscalationThreshold || p.statusId == StatusEscalated
    ensures q.statusId != StatusEscalated ==> q.statusId == p.statusId
    ensures q.directionId == DirectionUp
  {
    p.(count := p.count + 1,
       statusId := if p.count + 1 > EscalationThreshold then StatusEscalated else p.statusId,
       directionId := DirectionUp)
  }

  /** The clamped `count - 1` rule: never below zero, and a clamped step is marked as a reset. */
  function Decremented(p: Player): (q: Player)
    ensures q.name == p.name && q.statusId == p.statusId
    ensures q.count >= 0
    ensures p.count >= 1 ==> q.count == p.count - 1 && q.directionId == DirectionDown
    ensures p.count < 1 ==> q.count == 0 && q.directionId == DirectionReset
  {
    var clamped := p.count - 1 < 0;
    p.(count := if clamped then 0 else p.count - 1,
       directionId := if clamped then DirectionReset else DirectionDown)
  }

  /** The status change rule: leaving the on-leave status resets the direction. */
  function WithStatus(p: Player, status: int): (q: Player)
    ensures q.name == p.name && q.count == p.count && q.statusId == status
    ensures p.statusId == StatusLeave ==> q.directionId == DirectionReset
    ensures p.statusId != StatusLeave ==> q.directionId == p.directionId
  {
    p.(statusId := status,
       directionId := if p.statusId == StatusLeave then DirectionReset else p.directionId)
  }

  /** The rules an UPDATE applies to each matching row. */
  datatype Rule = Increment | Decrement | SetStatus(status: int) | Rename(newName: string)

  function Apply(rule: Rule, p: Player): Player {
    match rule
    case Increment => Incremented(p)
    case Decrement => Decremented(p)
    case SetStatus(s) => WithStatus(p, s)
    case Rename(n) => p.(name := n)
  }

  /**
   * `update(Players).where(Players.name.in_(names)).values(...)`: every row
   * whose name is listed gets the rule, every other row is left as it was.
   */
  function UpdateWhere(rows: seq<Player>, names: seq<string>, rule: Rule): (r: seq<Player>)
    ensures |r| == |rows|
    ensures forall i :: 0 <= i < |rows| && rows[i].name in names ==> r[i] == Apply(rule, rows[i])
    ensures forall i :: 0 <= i < |rows| && rows[i].name !in names ==> r[i] == rows[i]
  {
    if rows == [] then []
    else [if rows[0].name in names then Apply(rule, rows[0]) else rows[0]] + UpdateWhere(rows[1..], names, rule)
  }

  predicate CountsNonNegative(rows: seq<Player>) {
    forall i :: 0 <= i < |rows| ==> rows[i].count >= 0
  }

  /** No update rule makes a count negative. */
  lemma UpdateKeepsCountsNonNegative(rows: seq<Player>, names: seq<string>, rule: Rule)
    requires CountsNonNegative(rows)
    ensures CountsNonNegative(UpdateWhere(rows, names, rule))
  {
    var r := UpdateWhere(rows, names, rule);
    forall i | 0 <= i < |r| ensures r[i].count >= 0 {
      if rows[i].name in names {
        match rule
        case Increment =>
        case Decrement =>
        case SetStatus(s) =>
        case Rename(n) =>
      }
    }
  }

  /** An increment never lowers an escalated status, and escalates exactly the rows that pass the threshold. */
  lemma IncrementEscalation(rows: seq<Player>, names: seq<string>, i: int)
    requires 0 <= i < |rows|
    ensures var r := UpdateWhere(rows, names, Increment);
      && (rows[i].statusId == StatusEscalated ==> r[i].statusId == StatusEscalated)
      && (rows[i].name in names ==> (r[i].statusId == StatusEscalated <==> rows[i].count + 1 > EscalationThreshold || rows[i].statusId == StatusEscalated))
  {
  }

  // ---------------------------------------------------------------------------
  // Queries

  /** `orm_get_players2`: the names of the status-1 rows, in table order. */
  function EligibleNames(rows: seq<Player>): (names: seq<string>)
    ensures |names| <= |rows|
    ensures forall i :: 0 <= i < |rows| && rows[i].statusId == StatusNormal ==> rows[i].name in names
    ensures forall n :: n in names ==> exists i :: 0 <= i < |rows| && rows[i].name == n && rows[i].statusId == StatusNormal
  {
    if rows == [] then []
    else
      var rest := EligibleNames(rows[1..]);
      assert forall i :: 1 <= i < |rows| ==> rows[i] == rows[1..][i - 1];
      (if rows[0].statusId == StatusNormal then [rows[0].name] else []) + rest
  }

  /** The names are taken in table order: the query distributes over a split of the table. */
  lemma {:induction false} EligibleNamesAppend(a: seq<Player>, b: seq<Player>)
    ensures EligibleNames(a + b) == EligibleNames(a) + EligibleNames(b)
  {
    if a == [] {
      assert a + b == b;
    } else {
      assert (a + b)[1..] == a[1..] + b;
      EligibleNamesAppend(a[1..], b);
    }
  }

  /** `orm_get_players`: every row, or the rows with the given status, in table order. */
  function PlayersWithStatus(rows: seq<Player>, status: Option<int>): (r: seq<Player>)
    ensures status.None? ==> r == rows
    ensures |r| <= |rows|
    ensures forall p :: p in r <==> p in rows && (status.None? || p.statusId == status.value)
    ensures forall p :: multiset(r)[p] == if status.None? || p.statusId == status.value then multiset(rows)[p] else 0
  {
    if rows == [] then []
    else
      assert rows == [rows[0]] + rows[1..];
      (if status.None? || rows[0].statusId == status.value then [rows[0]] else [])
      + PlayersWithStatus(rows[1..], status)
  }

  /** The report keeps table order: the query distributes over a split of the table. */
  lemma {:induction false} PlayersWithStatusAppend(a: seq<Player>, b: seq<Player>, status: Option<int>)
    ensures PlayersWithStatus(a + b, status) == PlayersWithStatus(a, status) + PlayersWithStatus(b, status)
  {
    if a == [] {
      assert a + b == b;
    } else {
      assert a == [a[0]] + a[1..] && a + b == [a[0]] + (a[1..] + b);
      PlayersWithStatusCons(a[0], a[1..], status);
      PlayersWithStatusCons(a[0], a[1..] + b, status);
      PlayersWithStatusAppend(a[1..], b, status);
      var head := if status.None? || a[0].statusId == status.value then [a[0]] else [];
      var x, y := PlayersWithStatus(a[1..], status), PlayersWithStatus(b, status);
      AppendAssociative(head, x, y);
    }
  }

  lemma AppendAssociative<T>(x: seq<T>, y: seq<T>, z: seq<T>)
    ensures x + (y + z) == (x + y) + z
  {
  }

  lemma PlayersWithStatusCons(x: Player, rest: seq<Player>, status: Option<int>)
    ensures PlayersWithStatus([x] + rest, status)
      == (if status.None? || x.statusId == status.value then [x] else []) + PlayersWithStatus(rest, status)
  {
    assert ([x] + rest)[0] == x && ([x] + rest)[1..] == rest;
  }

  /** `orm_get_player`: the first row with the given name, if any. */
  function FindPlayer(rows: seq<Player>, name: string): (r: Option<Player>)
    ensures r.None? <==> forall i :: 0 <= i < |rows| ==> rows[i].name != name
    ensures r.Some? ==> r.value.name == name
    ensures r.Some? ==> exists i :: 0 <= i < |rows| && rows[i] == r.value && forall j :: 0 <= j < i ==> rows[j].name != name
  {
    if rows == [] then None
    else if rows[0].name == name then Some(rows[0])
    else
      assert forall i :: 1 <= i < |rows| ==> rows[i] == rows[1..][i - 1];
      FindPlayer(rows[1..], name)
  }

  /** `orm_get_card`: the card with the given name, if any. */
  function FindCard(cards: seq<Card>, name: string): (r: Option<Card>)
    ensures r.None? <==> forall i :: 0 <= i < |cards| ==> cards[i].name != name
    ensures r.Some? ==> r.value in cards && r.value.name == name
  {
    if cards == [] then None
    else if cards[0].name == name then Some(cards[0])
    else
      assert forall i :: 1 <= i < |cards| ==> cards[i] == cards[1..][i - 1];
      FindCard(cards[1..], name)
  }

  // ---------------------------------------------------------------------------
  // The tables

  /** The players table. */
  class PlayerTable {
    var rows: seq<Player>

    constructor (initial: seq<Player>)
      ensures rows == initial
    {
      rows := initial;
    }

    /** `orm_add_player`: appends a row with the defaults. */
    method AddPlayer(name: string)
      modifies this
      ensures rows == old(rows) + [NewPlayer(name)]
      ensures old(CountsNonNegative(rows)) ==> CountsNonNegative(rows)
    {
      rows := rows + [NewPlayer(name)];
    }

    /** `orm_change_player`: renames every row carrying the old name, and changes nothing else. */
    method ChangePlayer(playerName: string, newName: string)
      modifies this
      ensures rows == UpdateWhere(old(rows), [playerName], Rename(newName))
      ensures old(CountsNonNegative(rows)) ==> CountsNonNegative(rows)
    {
      if CountsNonNegative(rows) {
        UpdateKeepsCountsNonNegative(rows, [playerName], Rename(newName));
      }
      rows := UpdateWhere(rows, [playerName], Rename(newName));
    }

    /** `orm_update_player_plus`. */
    method UpdatePlus(names: seq<string>)
      modifies this
      ensures rows == UpdateWhere(old(rows), names, Increment)
      ensures old(CountsNonNegative(rows)) ==> CountsNonNegative(rows)
    {
      if CountsNonNegative(rows) {
        UpdateKeepsCountsNonNegative(rows, names, Increment);
      }
      rows := UpdateWhere(rows, names, Increment);
    }

    /** `orm_update_player_minus`. */
    method UpdateMinus(names: seq<string>)
      modifies this
      ensures rows == UpdateWhere(old(rows), names, Decrement)
      ensures old(CountsNonNegative(rows)) ==> CountsNonNegative(rows)
    {
      if CountsNonNegative(rows) {
        UpdateKeepsCountsNonNegative(rows, names, Decrement);
      }
      rows := UpdateWhere(rows, names, Decrement);
    }

    /** `orm_change_status_player`. */
    method ChangeStatus(playerName: string, status: int)
      modifies this
      ensures rows == UpdateWhere(old(rows), [playerName], SetStatus(status))
      ensures old(CountsNonNegative(rows)) ==> CountsNonNegative(rows)
    {
      if CountsNonNegative(rows) {
        UpdateKeepsCountsNonNegative(rows, [playerName], SetStatus(status));
      }
      rows := UpdateWhere(rows, [playerName], SetStatus(status));
    }
  }

  predicate DistinctCardNames(cards: seq<Card>) {
    forall i, j :: 0 <= i < j < |cards| ==> cards[i].name != cards[j].name
  }

  /** The card with the given key replaced, as `update(Cards).where(Cards.name == key)` writes it. */
  function ReplaceCard(cards: seq<Card>, key: string, card: Card): (r: seq<Card>)
    ensures |r| == |cards|
    ensures forall i :: 0 <= i < |cards| ==> r[i] == if cards[i].name == key then card else cards[i]
  {
    if cards == [] then []
    else [if cards[0].name == key then card else cards[0]] + ReplaceCard(cards[1..], key, card)
  }

  /** The cards table, whose unique constraint on the name rejects a statement that would break it. */
  class CardTable {
    var cards: seq<Card>

    constructor (initial: seq<Card>)
      ensures cards == initial
    {
      cards := initial;
    }

    /** `orm_add_card`; false stands for the IntegrityError of a duplicate name. */
    method AddCard(name: string, image: string) returns (ok: bool)
      modifies this
      ensures ok <==> FindCard(old(cards), name).None?
      ensures cards == if ok then old(cards) + [Card(name, image)] else old(cards)
      ensures old(DistinctCardNames(cards)) ==> DistinctCardNames(cards)
    {
      ok := FindCard(cards, name).None?;
      if ok {
        cards := cards + [Card(name, image)];
      }
    }

    /** `orm_update_card`; false stands for the IntegrityError of a name another card already has. */
    method UpdateCard(key: string, name: string, image: string) returns (ok: bool)
      modifies this
      ensures ok <==> DistinctCardNames(ReplaceCard(old(cards), key, Card(name, image)))
      ensures cards == if ok then ReplaceCard(old(cards), key, Card(name, image)) else old(cards)
      ensures DistinctCardNames(cards) || cards == old(cards)
    {
      var updated := ReplaceCard(cards, key, Card(name, image));
      ok := DistinctCardNames(updated);
      if ok {
        cards := updated;
      }
    }
  }

  /** The names after seeding: the categories go only into an empty table. */
  function Seeded(names: seq<string>, categories: seq<string>): (r: seq<string>)
    ensures names != [] ==> r == names
    ensures names == [] ==> r == categories
  {
    if names == [] then categories else names
  }

  /** Seeding a second time changes nothing. */
  lemma SeedIdempotent(names: seq<string>, categories: seq<string>)
    ensures Seeded(Seeded(names, categories), categories) == Seeded(names, categories)
  {
  }

  /** A reference table (statuses or directions) whose ids follow the order of its names. */
  class CategoryTable {
    var names: seq<string>

    constructor ()
      ensures names == []
    {
      names := [];
    }

    /** `orm_create_statuses` / `orm_create_directions`: seeds the names only into an empty table. */
    method Seed(categories: seq<string>)
      modifies this
      ensures names == Seeded(old(names), categories)
    {
      if names == [] {
        names := categories;
      }
    }
  }
}
