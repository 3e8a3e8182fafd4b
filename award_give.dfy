/**
 * `/award give`: guild check, award-type lookup, token deduction, award
 * insert and the reply, in the order the command performs them.
 */
module AwardGive {
  import opened Wrappers
  import opened AwardCatalogue
  import opened TokenLedger

  /** One row of the `awards` table as the give query inserts it. */
  datatype AwardRecord = AwardRecord(userId: UserId, guildId: GuildId, awardedBy: UserId, awardType: string, reason: string)

  /** The `awards` table. */
  class AwardStore {
    var awards: seq<AwardRecord>

    constructor ()
      ensures awards == []
    {
      awards := [];
    }

    /** The give query: appends one row. */
    method Insert(a: AwardRecord)
      modifies this
      ensures awards == old(awards) + [a]
    {
      awards := awards + [a];
    }
  }

  /** What the guild's configuration and channel cache say about the announce channel. */
  datatype Announce =
    | NoGuildConfig                 // no entry for the guild: reading it throws
    | NoAnnounceChannel             // the entry has no `announceChannel`
    | AnnounceChannel(sendable: bool) // configured; `sendable` is false when it is missing or not sendable

  /** The texts the command writes into its deferred reply (each edit replaces the previous one). */
  datatype Reply =
    | NotInGuild
    | InvalidAwardType
    | NotEnoughTokens(awardName: string, cost: int, tokensLeft: int)
    | AwardGiven(recipient: UserId, giver: UserId, tokensLeft: int)
    | AwardGivenWithEmbed(giver: UserId, recipient: UserId, awardName: string, tokensLeft: int, embedOf: AwardRecord)

  /** A message sent to the announce channel, with the embed built for the inserted award. */
  datatype Post = Post(giver: UserId, recipient: UserId, awardName: string, embedOf: AwardRecord)

  datatype GiveRequest = GiveRequest(
    guildId: Option<GuildId>,
    awardType: string,
    giver: UserId,
    recipient: UserId,
    reason: Option<string>)

  /** The ledger call `give` makes is always a valid column and always a deduction. */
  lemma {:induction false} GiveAsksForDeduction(t: AwardType)
    requires t in AwardTypes
    ensures ColumnOf(ColumnName(AwardTokens)).Some?
    ensures -t.cost < 0
  {
    CostsPositive();
  }

  /**
   * The replies and channel posts after the award row exists: a configured
   * sendable channel gets a post and the reply a summary; a configured but
   * unusable channel gets nothing; no announce channel means the reply
   * carries the embed; a guild without configuration throws.
   */
  function Announcement(announce: Announce, req: GiveRequest, award: AwardType, left: int, record: AwardRecord)
    : (seq<Reply>, seq<Post>, bool)
  {
    match announce
    case NoGuildConfig => ([], [], true)
    case AnnounceChannel(sendable) =>
      if sendable then ([AwardGiven(req.recipient, req.giver, left)], [Post(req.giver, req.recipient, award.name, record)], false)
      else ([], [], false)
    case NoAnnounceChannel => ([AwardGivenWithEmbed(req.giver, req.recipient, award.name, left, record)], [], false)
  }

  /**
   * What giving `award` does, from the ledger table and award list before
   * (`t0`, `a0`) to after (`t1`, `a1`): the table changes exactly as the
   * deduction changes it; when the ledger throws nothing else happens;
   * otherwise the award is inserted whatever the ledger answered, a refusal
   * is replied first, and the announcement follows.
   */
  ghost predicate Gave(t0: map<Key, Row>, t1: map<Key, Row>, minutesDefault: nat,
                       a0: seq<AwardRecord>, a1: seq<AwardRecord>,
                       req: GiveRequest, guildId: GuildId, award: AwardType, nowMs: int, announce: Announce,
                       replies: seq<Reply>, posts: seq<Post>, threw: bool)
  {
    var (out, t') := UpdateUserTokensSpec(t0, Key(req.giver, guildId), "award_tokens", -award.cost,
                                          CurrentWeek(nowMs), minutesDefault);
    && t1 == t'
    && (!out.Returned? ==> threw && replies == [] && posts == [] && a1 == a0)
    && (out.Returned? ==>
          var left := TokensLeft(out.response);
          var record := AwardRecord(req.recipient, guildId, req.giver, req.awardType, req.reason.GetOr(""));
          var (after, sent, failed) := Announcement(announce, req, award, left, record);
          && a1 == a0 + [record]
          && replies == (if out.response.validTokens then [] else [NotEnoughTokens(award.name, award.cost, left)]) + after
          && posts == sent && threw == failed)
  }

  /**
   * The part of `execute` after the checks: deduct the award's cost from the
   * giver's tokens, insert the award whatever the ledger answered, then
   * announce it. `threw` is true when an exception escapes (the ledger's get
   * query returned two rows, or the guild has no configuration).
   */
  method GiveAward(ledger: Ledger, store: AwardStore, req: GiveRequest, guildId: GuildId, award: AwardType,
                   nowMs: int, announce: Announce)
    returns (replies: seq<Reply>, posts: seq<Post>, threw: bool)
    requires ledger.Valid()
    modifies ledger, store
    ensures ledger.Valid()
    ensures Gave(old(ledger.table), ledger.table, ledger.minutesDefault, old(store.awards), store.awards,
                 req, guildId, award, nowMs, announce, replies, posts, threw)
  {
    replies, posts, threw := [], [], false;
    ghost var spec := UpdateUserTokensSpec(ledger.table, Key(req.giver, guildId),
                                           "award_tokens", -award.cost, CurrentWeek(nowMs), ledger.minutesDefault);
    var tokenData := ledger.UpdateUserTokens(Key(req.giver, guildId), ColumnName(AwardTokens), -award.cost, nowMs);
    assert (tokenData, ledger.table) == spec;
    if !tokenData.Returned? {
      threw := true;
      return;
    }
    var left := TokensLeft(tokenData.response);
    if !tokenData.response.validTokens {
      // the refusal is sent, but execution carries on
      replies := replies + [NotEnoughTokens(award.name, award.cost, left)];
    }
    var record := AwardRecord(req.recipient, guildId, req.giver, req.awardType, req.reason.GetOr(""));
    store.Insert(record);
    var (after, sent, failed) := Announcement(announce, req, award, left, record);
    replies, posts, threw := replies + after, sent, failed;
  }

  /** `execute` of `/award give`. */
  method Give(ledger: Ledger, store: AwardStore, req: GiveRequest, nowMs: int, announce: Announce)
    returns (replies: seq<Reply>, posts: seq<Post>, threw: bool)
    requires ledger.Valid()
    modifies ledger, store
    ensures ledger.Valid()
    ensures req.guildId.None? ==>
      replies == [NotInGuild] && posts == [] && !threw
      && ledger.table == old(ledger.table) && store.awards == old(store.awards)
    ensures req.guildId.Some? && FindAward(req.awardType).None? ==>
      replies == [InvalidAwardType] && posts == [] && !threw
      && ledger.table == old(ledger.table) && store.awards == old(store.awards)
    ensures req.guildId.Some? && FindAward(req.awardType).Some? ==>
      Gave(old(ledger.table), ledger.table, ledger.minutesDefault, old(store.awards), store.awards,
           req, req.guildId.value, FindAward(req.awardType).value, nowMs, announce, replies, posts, threw)
  {
    if req.guildId.None? {
      replies, posts, threw := [NotInGuild], [], false;
      return;
    }
    var found := FindAward(req.awardType);
    if found.None? {
      replies, posts, threw := [InvalidAwardType], [], false;
      return;
    }
    replies, posts, threw := GiveAward(ledger, store, req, req.guildId.value, found.value, nowMs, announce);
  }

  /**
   * After a give of a catalogue award: the ledger call is never refused as
   * an unknown column; when it throws no award is stored and nothing is
   * replied; otherwise exactly one award row is added, and the first reply
   * is the refusal exactly when the giver had too few tokens.
   */
  lemma GaveOutcome(t0: map<Key, Row>, t1: map<Key, Row>, minutesDefault: nat,
                    a0: seq<AwardRecord>, a1: seq<AwardRecord>,
                    req: GiveRequest, guildId: GuildId, award: AwardType, nowMs: int, announce: Announce,
                    replies: seq<Reply>, posts: seq<Post>, threw: bool)
    requires award in AwardTypes
    requires Gave(t0, t1, minutesDefault, a0, a1, req, guildId, award, nowMs, announce, replies, posts, threw)
    ensures var (out, _) := UpdateUserTokensSpec(t0, Key(req.giver, guildId), "award_tokens", -award.cost,
                                                 CurrentWeek(nowMs), minutesDefault);
      && !out.Undefined?
      && (out.Threw? ==> threw && a1 == a0 && replies == [])
      && (out.Returned? ==>
            && |a1| == |a0| + 1 && a1[..|a0|] == a0 && a1[|a0|].awardedBy == req.giver && a1[|a0|].userId == req.recipient
            && (out.response.validTokens <==> (replies == [] || !replies[0].NotEnoughTokens?)))
  {
    GiveAsksForDeduction(award);
    assert ColumnName(AwardTokens) == "award_tokens";
  }

  /**
   * Once the ledger has answered, the announcement is about the award just
   * stored: a sendable announce channel gets one post of that award and the
   * reply ends with the plain confirmation; without an announce channel the
   * reply ends with the award's embed; an unusable channel or a missing
   * configuration leaves at most the refusal, and only the missing
   * configuration throws, after the award was stored.
   */
  lemma GaveAnnouncement(t0: map<Key, Row>, t1: map<Key, Row>, minutesDefault: nat,
                         a0: seq<AwardRecord>, a1: seq<AwardRecord>,
                         req: GiveRequest, guildId: GuildId, award: AwardType, nowMs: int, announce: Announce,
                         replies: seq<Reply>, posts: seq<Post>, threw: bool)
    requires Gave(t0, t1, minutesDefault, a0, a1, req, guildId, award, nowMs, announce, replies, posts, threw)
    requires UpdateUserTokensSpec(t0, Key(req.giver, guildId), "award_tokens", -award.cost,
                                  CurrentWeek(nowMs), minutesDefault).0.Returned?
    ensures var (out, _) := UpdateUserTokensSpec(t0, Key(req.giver, guildId), "award_tokens", -award.cost,
                                                 CurrentWeek(nowMs), minutesDefault);
      var left := TokensLeft(out.response);
      && |a1| == |a0| + 1
      && (threw <==> announce == NoGuildConfig)
      && posts == (if announce == AnnounceChannel(true) then [Post(req.giver, req.recipient, award.name, a1[|a0|])] else [])
      && (announce == AnnounceChannel(true) ==>
            |replies| > 0 && replies[|replies| - 1] == AwardGiven(req.recipient, req.giver, left))
      && (announce == NoAnnounceChannel ==>
            |replies| > 0 && replies[|replies| - 1] == AwardGivenWithEmbed(req.giver, req.recipient, award.name, left, a1[|a0|]))
      && (announce == NoGuildConfig || announce == AnnounceChannel(false) ==>
            forall i :: 0 <= i < |replies| ==> replies[i].NotEnoughTokens?)
  {
  }
}
