/**
 * The weekly token ledger: the `user_tokens` table keyed by (user, guild),
 * its lazy creation and weekly reset, and the guarded balance update.
 *
 * The get query is one SQL statement with two data-modifying WITH clauses.
 * PostgreSQL runs those clauses and the final SELECT on one snapshot taken
 * before the statement, so the final SELECT sees the row as it was before
 * the weekly reset; the model keeps that behaviour.
 */
module TokenLedger {
  import opened Wrappers

  type UserId = string
  type GuildId = string

  /** The primary key of `user_tokens`. */
  datatype Key = Key(user: UserId, guild: GuildId)

  /** The token columns listed in TOKEN_TYPES. */
  datatype Column = AwardTokens | DiscordMinutes

  /** One `user_tokens` row (the key columns are the row's `Key`). */
  datatype Row = Row(awardTokens: int, discordMinutes: int, lastReset: int)

  /** The balance a new or freshly reset row gets. */
  const WeeklyTokens: int := 3
  /** Shifts the epoch so that weeks start at Sunday 00:00. */
  const WeekOffsetMs: int := 345_600_000
  const WeekMs: int := 604_800_000

  /** TOKEN_TYPES: the column name each token type stands for. */
  function ColumnName(c: Column): (name: string)
    ensures ColumnOf(name) == Some(c)
  {
    match c
    case AwardTokens => "award_tokens"
    case DiscordMinutes => "discord_minutes"
  }

  /** `tokenUpdateQueries[token]`: there is an update query exactly for each column name. */
  function ColumnOf(token: string): (r: Option<Column>)
    ensures r.Some? <==> token == "award_tokens" || token == "discord_minutes"
  {
    if token == "award_tokens" then Some(AwardTokens)
    else if token == "discord_minutes" then Some(DiscordMinutes)
    else None
  }

  function Get(r: Row, c: Column): int {
    match c
    case AwardTokens => r.awardTokens
    case DiscordMinutes => r.discordMinutes
  }

  function Set(r: Row, c: Column, v: int): (r': Row)
    ensures Get(r', c) == v
    ensures forall d :: d != c ==> Get(r', d) == Get(r, d)
    ensures r'.lastReset == r.lastReset
  {
    match c
    case AwardTokens => r.(awardTokens := v)
    case DiscordMinutes => r.(discordMinutes := v)
  }

  function Abs(x: int): int { if x < 0 then -x else x }

  /** `getCurrentWeek()`: floor((now + offset) / week length), `now` in milliseconds. */
  function CurrentWeek(nowMs: int): (w: int)
    ensures w * WeekMs <= nowMs + WeekOffsetMs < (w + 1) * WeekMs
  {
    (nowMs + WeekOffsetMs) / WeekMs
  }

  /** A later clock reading never gives an earlier week. */
  lemma CurrentWeekMonotone(a: int, b: int)
    requires a <= b
    ensures CurrentWeek(a) <= CurrentWeek(b)
  {
  }

  /** Every full week of milliseconds advances the week number by exactly one. */
  lemma CurrentWeekStep(nowMs: int)
    ensures CurrentWeek(nowMs + WeekMs) == CurrentWeek(nowMs) + 1
  {
  }

  predicate NoDuplicates(s: seq<Row>) {
    forall i, j :: 0 <= i < j < |s| ==> s[i] != s[j]
  }

  /** SQL UNION: the rows of the operands with duplicates dropped, first occurrence kept. */
  function Dedup(s: seq<Row>): seq<Row>
  {
    if s == [] then []
    else if s[|s| - 1] in s[..|s| - 1] then Dedup(s[..|s| - 1])
    else Dedup(s[..|s| - 1]) + [s[|s| - 1]]
  }

  /** UNION keeps every row of its operands, and each of them once. */
  lemma {:induction false} DedupIsUnion(s: seq<Row>)
    ensures forall x :: x in Dedup(s) <==> x in s
    ensures NoDuplicates(Dedup(s))
    ensures |Dedup(s)| <= |s|
  {
    if s != [] {
      var init := s[..|s| - 1];
      DedupIsUnion(init);
      assert s == init + [s[|s| - 1]];
    }
  }

  /** What one SQL statement returns and the table it leaves behind. */
  datatype QueryResult = QueryResult(rows: seq<Row>, table: map<Key, Row>)

  predicate IsStale(t: map<Key, Row>, k: Key, week: int) {
    k in t && t[k].lastReset < week
  }

  /**
   * The get query. `updated` resets a stale row; `inserted` adds a new row
   * unless the key already exists; the final SELECT reads the snapshot taken
   * before either change; UNION merges the three.
   */
  function GetQuery(t: map<Key, Row>, k: Key, week: int, minutesDefault: int): (q: QueryResult)
    ensures k in q.table && q.table.Keys == t.Keys + {k}
    ensures forall k' :: k' in t && k' != k ==> q.table[k'] == t[k']
  {
    var updated := if IsStale(t, k, week) then [t[k].(awardTokens := WeeklyTokens, lastReset := week)] else [];
    var inserted := if k in t then [] else [Row(WeeklyTokens, minutesDefault, week)];
    var snapshot := if k in t then [t[k]] else [];
    var t' := if IsStale(t, k, week) then t[k := t[k].(awardTokens := WeeklyTokens, lastReset := week)]
              else if k !in t then t[k := Row(WeeklyTokens, minutesDefault, week)]
              else t;
    QueryResult(Dedup(updated + inserted + snapshot), t')
  }

  /** UNION leaves rows that are already distinct as they are. */
  lemma {:induction false} DedupDistinct(s: seq<Row>)
    requires NoDuplicates(s)
    ensures Dedup(s) == s
  {
    if s != [] {
      var init := s[..|s| - 1];
      assert NoDuplicates(init);
      DedupDistinct(init);
      assert s[|s| - 1] !in init;
      assert init + [s[|s| - 1]] == s;
    }
  }

  /**
   * The get query yields exactly one row unless it performed a weekly reset,
   * and then that row is the one now stored; a reset yields two rows, the new
   * one and the pre-reset one.
   */
  lemma {:induction false} GetQueryRows(t: map<Key, Row>, k: Key, week: int, minutesDefault: int)
    ensures var q := GetQuery(t, k, week, minutesDefault);
      (|q.rows| == 1 <==> !IsStale(t, k, week))
      && (!IsStale(t, k, week) ==> q.rows == [q.table[k]])
      && (IsStale(t, k, week) ==> q.rows == [q.table[k], t[k]])
  {
    if IsStale(t, k, week) {
      ResetRows(t, k, week, minutesDefault);
    } else if k in t {
      CurrentRows(t, k, week, minutesDefault);
    } else {
      MissingRows(t, k, week, minutesDefault);
    }
  }

  /** A weekly reset yields the reset row followed by the pre-reset row. */
  lemma ResetRows(t: map<Key, Row>, k: Key, week: int, minutesDefault: int)
    requires IsStale(t, k, week)
    ensures var q := GetQuery(t, k, week, minutesDefault);
      q.rows == [q.table[k], t[k]] && q.table[k] != t[k]
  {
    var u := t[k].(awardTokens := WeeklyTokens, lastReset := week);
    assert [u] + [] + [t[k]] == [u, t[k]];
    assert u.lastReset != t[k].lastReset;
    DedupDistinct([u, t[k]]);
  }

  /** A current row is read as it is stored. */
  lemma CurrentRows(t: map<Key, Row>, k: Key, week: int, minutesDefault: int)
    requires k in t && !IsStale(t, k, week)
    ensures var q := GetQuery(t, k, week, minutesDefault);
      q.rows == [t[k]] && q.table == t
  {
    assert [] + [] + [t[k]] == [t[k]];
    DedupDistinct([t[k]]);
  }

  /** A missing row is read as the one just inserted. */
  lemma MissingRows(t: map<Key, Row>, k: Key, week: int, minutesDefault: int)
    requires k !in t
    ensures var q := GetQuery(t, k, week, minutesDefault);
      q.rows == [q.table[k]]
  {
    var n := Row(WeeklyTokens, minutesDefault, week);
    assert [] + [n] + [] == [n];
    DedupDistinct([n]);
  }

  /** A missing row is created with the weekly balance in the current week; a stale row is reset; a current row is untouched. */
  lemma GetQueryTable(t: map<Key, Row>, k: Key, week: int, minutesDefault: int)
    ensures var t' := GetQuery(t, k, week, minutesDefault).table;
      (k !in t ==> t' == t[k := Row(WeeklyTokens, minutesDefault, week)])
      && (IsStale(t, k, week) ==> t' == t[k := t[k].(awardTokens := WeeklyTokens, lastReset := week)])
      && (k in t && !IsStale(t, k, week) ==> t' == t)
  {
  }

  /**
   * One of `tokenUpdateQueries`: add `amount` to the column of the keyed row,
   * but only if it is an addition or the balance covers the deduction.
   */
  function UpdateQuery(t: map<Key, Row>, k: Key, c: Column, amount: int, isAddition: bool): (q: QueryResult)
    ensures q.table.Keys == t.Keys
  {
    if k in t && (isAddition || Get(t[k], c) >= Abs(amount)) then
      var r := Set(t[k], c, Get(t[k], c) + amount);
      QueryResult([r], t[k := r])
    else QueryResult([], t)
  }

  /** The object `updateUserTokens` resolves to: the query rows and the `validTokens` flag. */
  datatype Response = Response(rows: seq<Row>, validTokens: bool)

  datatype UpdateOutcome =
    | Undefined            // unknown token name: `undefined` is returned
    | Threw                // getUserTokens threw
    | Returned(response: Response)

  /** `updateUserTokens` as a function of the table before the call: its outcome and the table after it. */
  function UpdateUserTokensSpec(t: map<Key, Row>, k: Key, token: string, amount: int, week: int, minutesDefault: int)
    : (result: (UpdateOutcome, map<Key, Row>))
  {
    var isAddition := amount > 0;
    match ColumnOf(token)
    case None => (Undefined, t)
    case Some(c) =>
      var g := GetQuery(t, k, week, minutesDefault);
      if |g.rows| != 1 then (Threw, g.table)
      else if !isAddition && Get(g.rows[0], c) < Abs(amount) then (Returned(Response(g.rows, false)), g.table)
      else
        var u := UpdateQuery(g.table, k, c, amount, isAddition);
        (Returned(Response(u.rows, true)), u.table)
  }

  /** `rows[0][award_tokens]` of a response; the ledger never returns an empty response (see ReturnedOneRow). */
  function TokensLeft(r: Response): int {
    if r.rows == [] then 0 else r.rows[0].awardTokens
  }

  /** Whatever `updateUserTokens` returns holds exactly one row. */
  lemma {:induction false} ReturnedOneRow(t: map<Key, Row>, k: Key, token: string, amount: int, week: int, minutesDefault: int)
    ensures var out := UpdateUserTokensSpec(t, k, token, amount, week, minutesDefault).0;
      out.Returned? ==> |out.response.rows| == 1
  {
    match ColumnOf(token)
    case None =>
    case Some(c) =>
      GetQueryRows(t, k, week, minutesDefault);
  }

  /** An unknown token name returns undefined before the table is read or written. */
  lemma UnknownTokenTouchesNothing(t: map<Key, Row>, k: Key, token: string, amount: int, week: int, minutesDefault: int)
    requires token != "award_tokens" && token != "discord_minutes"
    ensures UpdateUserTokensSpec(t, k, token, amount, week, minutesDefault) == (Undefined, t)
  {
  }

  /** The call throws exactly when the get query performs a weekly reset; the reset is kept. */
  lemma ThrowsIffReset(t: map<Key, Row>, k: Key, c: Column, amount: int, week: int, minutesDefault: int)
    ensures var (out, t') := UpdateUserTokensSpec(t, k, ColumnName(c), amount, week, minutesDefault);
      (out == Threw <==> IsStale(t, k, week))
      && (out == Threw ==> t' == t[k := t[k].(awardTokens := WeeklyTokens, lastReset := week)])
  {
    GetQueryRows(t, k, week, minutesDefault);
  }

  /**
   * A deduction larger than the balance is refused: `validTokens` is false,
   * the returned row is the stored one and the table only carries what the
   * get query did (a new row for a new key).
   */
  lemma RefusedDeduction(t: map<Key, Row>, k: Key, c: Column, amount: int, week: int, minutesDefault: int)
    requires amount <= 0 && !IsStale(t, k, week)
    requires Get(GetQuery(t, k, week, minutesDefault).table[k], c) < -amount
    ensures var (out, t') := UpdateUserTokensSpec(t, k, ColumnName(c), amount, week, minutesDefault);
      out == Returned(Response([t'[k]], false)) && t' == GetQuery(t, k, week, minutesDefault).table
  {
    GetQueryRows(t, k, week, minutesDefault);
  }

  /**
   * An accepted call changes only the named column of the keyed row, by
   * exactly `amount`, and returns that row; a deduction leaves it non-negative.
   * Additions are always accepted.
   */
  lemma {:induction false} AcceptedUpdate(t: map<Key, Row>, k: Key, c: Column, amount: int, week: int, minutesDefault: int)
    requires !IsStale(t, k, week)
    requires amount > 0 || Get(GetQuery(t, k, week, minutesDefault).table[k], c) >= -amount
    ensures var g := GetQuery(t, k, week, minutesDefault).table;
      var (out, t') := UpdateUserTokensSpec(t, k, ColumnName(c), amount, week, minutesDefault);
      && out == Returned(Response([t'[k]], true))
      && t' == g[k := Set(g[k], c, Get(g[k], c) + amount)]
      && (amount <= 0 ==> Get(t'[k], c) >= 0)
  {
    var g := GetQuery(t, k, week, minutesDefault);
    if k in t {
      CurrentRows(t, k, week, minutesDefault);
    } else {
      MissingRows(t, k, week, minutesDefault);
    }
    var r := Set(g.table[k], c, Get(g.table[k], c) + amount);
    assert UpdateQuery(g.table, k, c, amount, amount > 0) == QueryResult([r], g.table[k := r]);
    assert ColumnOf(ColumnName(c)) == Some(c);
    assert UpdateUserTokensSpec(t, k, ColumnName(c), amount, week, minutesDefault)
        == (Returned(Response([r], true)), g.table[k := r]);
  }

  /** Rows of other keys are never touched, and no key ever disappears. */
  lemma {:induction false} OtherRowsUntouched(t: map<Key, Row>, k: Key, token: string, amount: int, week: int, minutesDefault: int)
    ensures var t' := UpdateUserTokensSpec(t, k, token, amount, week, minutesDefault).1;
      t.Keys <= t'.Keys <= t.Keys + {k}
      && forall k' :: k' in t && k' != k ==> t'[k'] == t[k']
  {
    match ColumnOf(token)
    case None =>
    case Some(c) =>
      var g := GetQuery(t, k, week, minutesDefault);
      if |g.rows| == 1 && !(amount <= 0 && Get(g.rows[0], c) < Abs(amount)) {
        var u := UpdateQuery(g.table, k, c, amount, amount > 0);
        assert u.table.Keys == g.table.Keys;
      }
  }

  predicate NonNegative(r: Row) {
    r.awardTokens >= 0 && r.discordMinutes >= 0
  }

  predicate AllNonNegative(t: map<Key, Row>) {
    forall k :: k in t ==> NonNegative(t[k])
  }

  /** The get query only ever writes rows with the weekly balance. */
  lemma GetQueryKeepsNonNegative(t: map<Key, Row>, k: Key, week: int, minutesDefault: int)
    requires AllNonNegative(t) && minutesDefault >= 0
    ensures AllNonNegative(GetQuery(t, k, week, minutesDefault).table)
  {
    GetQueryTable(t, k, week, minutesDefault);
  }

  /** The guard of the update query never lets a balance fall below zero. */
  lemma UpdateQueryKeepsNonNegative(t: map<Key, Row>, k: Key, c: Column, amount: int, isAddition: bool)
    requires AllNonNegative(t) && isAddition == (amount > 0)
    ensures AllNonNegative(UpdateQuery(t, k, c, amount, isAddition).table)
  {
    if k in t && (isAddition || Get(t[k], c) >= Abs(amount)) {
      var r := Set(t[k], c, Get(t[k], c) + amount);
      assert r.awardTokens == Get(r, AwardTokens) && r.discordMinutes == Get(r, DiscordMinutes);
    }
  }

  /** No balance ever becomes negative, provided the column default for new rows is not. */
  lemma {:induction false} UpdateKeepsNonNegative(t: map<Key, Row>, k: Key, token: string, amount: int, week: int, minutesDefault: int)
    requires AllNonNegative(t) && minutesDefault >= 0
    ensures AllNonNegative(UpdateUserTokensSpec(t, k, token, amount, week, minutesDefault).1)
  {
    match ColumnOf(token)
    case None =>
    case Some(c) =>
      var g := GetQuery(t, k, week, minutesDefault);
      GetQueryKeepsNonNegative(t, k, week, minutesDefault);
      UpdateQueryKeepsNonNegative(g.table, k, c, amount, amount > 0);
  }

  /** The `user_tokens` table as the bot's database holds it. */
  class Ledger {
    var table: map<Key, Row>
    /** The schema's default for `discord_minutes`, which the insert does not set. */
    const minutesDefault: nat

    ghost predicate Valid()
      reads this
    {
      AllNonNegative(table)
    }

    constructor (minutesDefault: nat)
      ensures Valid() && table == map[] && this.minutesDefault == minutesDefault
    {
      table := map[];
      this.minutesDefault := minutesDefault;
    }

    /**
     * `getUserTokens`: runs the get query for the week of `nowMs` and throws
     * unless it returned exactly one row.
     */
    method GetUserTokens(k: Key, nowMs: int) returns (rows: Option<seq<Row>>)
      requires Valid()
      modifies this
      ensures Valid()
      ensures var q := GetQuery(old(table), k, CurrentWeek(nowMs), minutesDefault);
        table == q.table && rows == (if |q.rows| == 1 then Some(q.rows) else None)
    {
      var week := CurrentWeek(nowMs);
      var snapshot := table;
      GetQueryTable(snapshot, k, week, minutesDefault);
      var updated: seq<Row> := [];
      if k in table && table[k].lastReset < week {
        table := table[k := table[k].(awardTokens := WeeklyTokens, lastReset := week)];
        updated := [table[k]];
      }
      var inserted: seq<Row> := [];
      if k !in snapshot {
        table := table[k := Row(WeeklyTokens, minutesDefault, week)];
        inserted := [table[k]];
      }
      var selected := if k in snapshot then [snapshot[k]] else [];
      var result := Dedup(updated + inserted + selected);
      if |result| != 1 {
        return None;
      }
      return Some(result);
    }

    /**
     * `updateUserTokens`: look the column up, read the row through
     * `getUserTokens`, refuse a deduction the balance does not cover,
     * otherwise run the guarded increment.
     */
    method UpdateUserTokens(k: Key, token: string, amount: int, nowMs: int) returns (out: UpdateOutcome)
      requires Valid()
      modifies this
      ensures Valid()
      ensures (out, table) == UpdateUserTokensSpec(old(table), k, token, amount, CurrentWeek(nowMs), minutesDefault)
    {
      ghost var t0 := table;
      UpdateKeepsNonNegative(t0, k, token, amount, CurrentWeek(nowMs), minutesDefault);
      var isAddition := amount > 0;
      var column := ColumnOf(token);
      if column.None? {
        return Undefined;
      }
      var c := column.value;
      var got := GetUserTokens(k, nowMs);
      if got.None? {
        return Threw;
      }
      var rows := got.value;
      if !isAddition && Get(rows[0], c) < Abs(amount) {
        return Returned(Response(rows, false));
      }
      var u := UpdateQuery(table, k, c, amount, isAddition);
      table := u.table;
      return Returned(Response(u.rows, true));
    }
  }
}
