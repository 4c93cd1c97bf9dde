/**
 * The reconciler both pollers share, as functions from the registry and the
 * platform to the new registry, the platform calls made in order, and the
 * outcome. bot/competition.py and bot/leaderboard.py implement the same
 * steps; they differ only in what an edit that reports NotFound does
 * (`EditPolicy`). The cog classes are proved to follow these functions.
 */
module Reconciler {
  import opened Wrappers
  import opened OrderedDict
  import opened Discord
  import opened GuildRegistry

  /** The platform as one operation sees it: its cache, and what it answers to a delete or an edit of a message. */
  datatype Platform = Platform(cache: Cache, deleteResult: MessageInfo -> ApiResult, editResult: MessageInfo -> ApiResult)

  datatype Content = Text(text: string) | Rich(embed: Embed)

  /** The observable effects, in order: platform requests and `save_settings` with what it persisted. */
  datatype Call =
    | Delete(ref: MessageInfo)
    | Edit(ref: MessageInfo, embed: Option<Embed>)
    | Send(channel: ChannelId, content: Content)
    | Save(snapshot: Settings)

  datatype Step = Step(settings: Settings, calls: seq<Call>, outcome: Outcome)

  /** `_delete_message`: Forbidden and NotFound are swallowed; any other HTTP error escapes. */
  function DeleteOutcome(r: ApiResult): (o: Outcome)
    ensures o.Ok? <==> r != Failed(OtherHttp)
    ensures o.Raised? ==> o.exception == Api(OtherHttp)
  {
    match r
    case Done => Ok
    case Failed(Forbidden) => Ok
    case Failed(NotFound) => Ok
    case Failed(OtherHttp) => Raised(Api(OtherHttp))
  }

  /**
   * `_new_message`: delete the guild's previous message when its location
   * resolves, then store the new location and save. An error that escapes
   * the lookup or the delete leaves the registry as it was and saves nothing.
   */
  function NewMessage(s: Settings, p: Platform, guild: GuildId, info: MessageInfo): (r: Step)
  {
    var stored := Put(s, guild, Typed(info));
    match GetSavedMessageInfo(s, guild)
    case Failure(e) => Step(s, [], Raised(e))
    case Success(None) => Step(stored, [Save(stored)], Ok)
    case Success(Some(prior)) =>
      match FetchSavedMessage(p.cache, guild, prior)
      case None => Step(stored, [Save(stored)], Ok)
      case Some(ref) =>
        var o := DeleteOutcome(p.deleteResult(ref));
        if o.Raised? then Step(s, [Delete(ref)], o)
        else Step(stored, [Delete(ref), Save(stored)], Ok)
  }

  /** What an edit that reports NotFound does: the competition cog forgets the guild, the leaderboard cog lets it escape. */
  datatype EditPolicy = CatchNotFound | PropagateAll

  /** `del config_settings[guild]` and `save_settings()`, after the calls already made; a missing key raises KeyError. */
  function Forget(s: Settings, guild: GuildId, before: seq<Call>): (r: Step)
  {
    if guild in s.values then
      var t := Remove(s, guild);
      Step(t, before + [Save(t)], Ok)
    else Step(s, before, Raised(KeyError))
  }

  /**
   * `_update_guild_message`. `info` is what `get_saved_message_info` gave
   * the loop; None reaches `_fetch_saved_message`, which raises
   * AttributeError when the guild is cached and otherwise reports the message
   * as unresolvable.
   */
  function UpdateGuild(s: Settings, p: Platform, guild: GuildId, info: Option<MessageInfo>,
                       embed: Option<Embed>, policy: EditPolicy): (r: Step)
    ensures r.settings == s || (guild in s.values && r.settings == Remove(s, guild))
    ensures r.outcome.Raised? ==> r.settings == s
  {
    match info
    case None =>
      if guild in p.cache then Step(s, [], Raised(AttributeError)) else Forget(s, guild, [])
    case Some(i) =>
      match FetchSavedMessage(p.cache, guild, i)
      case None => Forget(s, guild, [])
      case Some(ref) =>
        var edit := [Edit(ref, embed)];
        match p.editResult(ref)
        case Done => Step(s, edit, Ok)
        case Failed(e) =>
          if e == NotFound && policy == CatchNotFound then Forget(s, guild, edit)
          else Step(s, edit, Raised(Api(e)))
  }

  /** One guild's turn in `update_task`: look up its saved location, then `_update_guild_message`. */
  function Turn(s: Settings, p: Platform, embed: Option<Embed>, policy: EditPolicy, guild: GuildId): (r: Step)
    ensures r.settings == s || (guild in s.values && r.settings == Remove(s, guild))
    ensures r.outcome.Raised? ==> r.settings == s
  {
    match GetSavedMessageInfo(s, guild)
    case Failure(e) => Step(s, [], Raised(e))
    case Success(info) => UpdateGuild(s, p, guild, info, embed, policy)
  }

  /**
   * The loop of `update_task` over a snapshot of the guild ids: each guild
   * takes its turn with the one shared embed; the first exception ends the
   * cycle.
   */
  function Cycle(s: Settings, p: Platform, embed: Option<Embed>, policy: EditPolicy, guilds: seq<GuildId>): (r: Step)
    decreases |guilds|
  {
    if guilds == [] then Step(s, [], Ok)
    else
      var first := Turn(s, p, embed, policy, guilds[0]);
      if first.outcome.Raised? then first
      else
        var rest := Cycle(first.settings, p, embed, policy, guilds[1..]);
        Step(rest.settings, first.calls + rest.calls, rest.outcome)
  }

  /**
   * Loop invariant of the implementations of `update_task`: `whole`, the
   * cycle over the full snapshot, is the calls `done` made so far followed by
   * the cycle over what is left, from the current registry `s`.
   */
  ghost predicate Resumes(whole: Step, s: Settings, p: Platform, embed: Option<Embed>, policy: EditPolicy,
                          snapshot: seq<GuildId>, i: nat, done: seq<Call>)
    requires i <= |snapshot|
  {
    var rest := Cycle(s, p, embed, policy, snapshot[i..]);
    whole == Step(rest.settings, done + rest.calls, rest.outcome)
  }

  /** The loop starts: nothing done, the whole snapshot left. */
  lemma CycleStart(s: Settings, p: Platform, embed: Option<Embed>, policy: EditPolicy, snapshot: seq<GuildId>)
    ensures Resumes(Cycle(s, p, embed, policy, snapshot), s, p, embed, policy, snapshot, 0, [])
  {
    assert snapshot[0..] == snapshot;
    var c := Cycle(s, p, embed, policy, snapshot);
    assert [] + c.calls == c.calls;
  }

  /** One turn of such a loop: a raising turn ends the cycle, otherwise it resumes at `i + 1`. */
  lemma CycleTurn(whole: Step, s: Settings, p: Platform, embed: Option<Embed>, policy: EditPolicy,
                  snapshot: seq<GuildId>, i: nat, done: seq<Call>)
    requires i < |snapshot|
    requires Resumes(whole, s, p, embed, policy, snapshot, i, done)
    ensures var step := Turn(s, p, embed, policy, snapshot[i]);
      && (step.outcome.Raised? ==> whole == Step(step.settings, done + step.calls, step.outcome))
      && (step.outcome.Ok? ==> Resumes(whole, step.settings, p, embed, policy, snapshot, i + 1, done + step.calls))
  {
    assert snapshot[i..][0] == snapshot[i] && snapshot[i..][1..] == snapshot[i + 1..];
    var step := Turn(s, p, embed, policy, snapshot[i]);
    if step.outcome.Ok? {
      var rest := Cycle(step.settings, p, embed, policy, snapshot[i + 1..]);
      assert done + (step.calls + rest.calls) == (done + step.calls) + rest.calls;
    }
  }

  /** The loop has visited the whole snapshot. */
  lemma CycleDone(whole: Step, s: Settings, p: Platform, embed: Option<Embed>, policy: EditPolicy,
                  snapshot: seq<GuildId>, done: seq<Call>)
    requires Resumes(whole, s, p, embed, policy, snapshot, |snapshot|, done)
    ensures whole == Step(s, done, Ok)
  {
    assert snapshot[|snapshot|..] == [];
  }

  // ---------------------------------------------------------------------------
  // The registry stays a well-formed ordered dict

  lemma NewMessageKeepsValid(s: Settings, p: Platform, guild: GuildId, info: MessageInfo)
    requires Valid(s)
    ensures Valid(NewMessage(s, p, guild, info).settings)
  {
    PutKeepsValid(s, guild, Typed(info));
  }

  lemma TurnKeepsValid(s: Settings, p: Platform, embed: Option<Embed>, policy: EditPolicy, guild: GuildId)
    requires Valid(s)
    ensures Valid(Turn(s, p, embed, policy, guild).settings)
  {
    if guild in s.values {
      RemoveKeepsValid(s, guild);
    }
  }

  lemma {:induction false} CycleKeepsValid(s: Settings, p: Platform, embed: Option<Embed>, policy: EditPolicy,
                                           guilds: seq<GuildId>)
    requires Valid(s)
    ensures Valid(Cycle(s, p, embed, policy, guilds).settings)
    decreases |guilds|
  {
    if guilds != [] {
      TurnKeepsValid(s, p, embed, policy, guilds[0]);
      var first := Turn(s, p, embed, policy, guilds[0]);
      if first.outcome.Ok? {
        CycleKeepsValid(first.settings, p, embed, policy, guilds[1..]);
      }
    }
  }

  // ---------------------------------------------------------------------------
  // _new_message

  /** No prior entry: no delete is attempted; the new location is stored and saved. */
  lemma NewMessageWithoutPriorEntry(s: Settings, p: Platform, guild: GuildId, info: MessageInfo)
    requires guild !in s.values
    ensures var r := NewMessage(s, p, guild, info);
      && r.outcome == Ok
      && r.settings.values == s.values[guild := Typed(info)]
      && r.settings.keys == s.keys + [guild]
      && r.calls == [Save(r.settings)]
  {
  }

  /**
   * A prior entry that resolves: its message is deleted first; Forbidden and
   * NotFound are swallowed; any other error escapes before the registry is
   * written.
   */
  lemma NewMessageReplacesResolvedPrior(s: Settings, p: Platform, guild: GuildId, info: MessageInfo, prior: MessageInfo)
    requires GetSavedMessageInfo(s, guild) == Success(Some(prior))
    requires ChannelInGuild(p.cache, guild, prior.channelId)
    ensures var r := NewMessage(s, p, guild, info);
      && r.calls[0] == Delete(prior)
      && (r.outcome.Ok? <==> p.deleteResult(prior) != Failed(OtherHttp))
      && (r.outcome.Ok? ==> r.calls == [Delete(prior), Save(r.settings)])
      && (r.outcome.Raised? ==> r.calls == [Delete(prior)] && r.settings == s)
  {
  }

  /**
   * Whatever the branch: on success the guild maps to exactly the new
   * location, every other guild's entry is unchanged and the last call saves
   * that registry; on failure the registry is untouched and nothing is saved.
   * At most the guild's own previous location is deleted.
   */
  lemma NewMessageEffect(s: Settings, p: Platform, guild: GuildId, info: MessageInfo)
    ensures var r := NewMessage(s, p, guild, info);
      && (r.outcome.Ok? ==>
            && r.settings.values == s.values[guild := Typed(info)]
            && r.settings.keys == (if guild in s.values then s.keys else s.keys + [guild])
            && |r.calls| > 0 && r.calls[|r.calls| - 1] == Save(r.settings))
      && (r.outcome.Raised? ==>
            && r.settings == s
            && (forall c :: c in r.calls ==> !c.Save?)
            && r.outcome.exception in {IndexError, Api(OtherHttp)})
      && (forall c :: c in r.calls && c.Delete? ==> GetSavedMessageInfo(s, guild) == Success(Some(c.ref)))
  {
  }

  // ---------------------------------------------------------------------------
  // _update_guild_message and the cycle

  /** The guild's saved location resolves to a cached channel: the reference an edit would go to. */
  ghost predicate Resolves(s: Settings, p: Platform, guild: GuildId, ref: MessageInfo) {
    GetSavedMessageInfo(s, guild) == Success(Some(ref)) && ChannelInGuild(p.cache, guild, ref.channelId)
  }

  /** An unresolvable message: the entry is deleted and saved, and no edit is made. */
  lemma UnresolvableGuildIsForgotten(s: Settings, p: Platform, guild: GuildId, info: MessageInfo,
                                     embed: Option<Embed>, policy: EditPolicy)
    requires guild in s.values
    requires !ChannelInGuild(p.cache, guild, info.channelId)
    ensures var r := UpdateGuild(s, p, guild, Some(info), embed, policy);
      && r.outcome == Ok
      && r.settings.values == s.values - {guild}
      && r.calls == [Save(r.settings)]
  {
  }

  /** A resolvable message is edited with the embed; a successful edit leaves the registry unchanged. */
  lemma ResolvedGuildIsEdited(s: Settings, p: Platform, guild: GuildId, info: MessageInfo,
                              embed: Option<Embed>, policy: EditPolicy)
    requires ChannelInGuild(p.cache, guild, info.channelId)
    ensures var r := UpdateGuild(s, p, guild, Some(info), embed, policy);
      && r.calls[0] == Edit(info, embed)
      && (p.editResult(info) == Done ==> r == Step(s, [Edit(info, embed)], Ok))
  {
  }

  /**
   * An edit that reports NotFound: the competition cog deletes the entry and
   * saves; the leaderboard cog lets the exception escape and keeps the entry.
   */
  lemma EditNotFoundByPolicy(s: Settings, p: Platform, guild: GuildId, info: MessageInfo, embed: Option<Embed>)
    requires guild in s.values
    requires ChannelInGuild(p.cache, guild, info.channelId)
    requires p.editResult(info) == Failed(NotFound)
    ensures var c := UpdateGuild(s, p, guild, Some(info), embed, CatchNotFound);
      c.outcome == Ok && c.settings.values == s.values - {guild} && c.calls == [Edit(info, embed), Save(c.settings)]
    ensures var l := UpdateGuild(s, p, guild, Some(info), embed, PropagateAll);
      l.outcome == Raised(Api(NotFound)) && l.settings == s && l.calls == [Edit(info, embed)]
  {
  }

  /**
   * A cycle only forgets entries: every surviving entry is unchanged, and
   * only guilds of the snapshot can disappear.
   */
  lemma {:induction false} CycleOnlyForgets(s: Settings, p: Platform, embed: Option<Embed>, policy: EditPolicy,
                                            guilds: seq<GuildId>)
    ensures var r := Cycle(s, p, embed, policy, guilds);
      && SubDict(r.settings, s)
      && (forall g :: g in s.values && g !in guilds ==> g in r.settings.values)
    decreases |guilds|
  {
    if guilds != [] {
      var first := Turn(s, p, embed, policy, guilds[0]);
      if first.outcome.Ok? {
        CycleOnlyForgets(first.settings, p, embed, policy, guilds[1..]);
        forall g | g in s.values && g !in guilds
          ensures g in first.settings.values && g !in guilds[1..]
        {
          assert g != guilds[0];
        }
      }
    }
  }

  /** A guild's turn edits, if at all, with the embed it is given. */
  lemma TurnUsesOneEmbed(s: Settings, p: Platform, embed: Option<Embed>, policy: EditPolicy, guild: GuildId)
    ensures forall c :: c in Turn(s, p, embed, policy, guild).calls && c.Edit? ==> c.embed == embed
  {
  }

  /** Every edit of a cycle carries the same embed, the one cached for the cycle. */
  lemma {:induction false} CycleUsesOneEmbed(s: Settings, p: Platform, embed: Option<Embed>, policy: EditPolicy,
                                             guilds: seq<GuildId>)
    ensures forall c :: c in Cycle(s, p, embed, policy, guilds).calls && c.Edit? ==> c.embed == embed
    decreases |guilds|
  {
    if guilds != [] {
      var first := Turn(s, p, embed, policy, guilds[0]);
      if first.outcome.Ok? {
        CycleUsesOneEmbed(first.settings, p, embed, policy, guilds[1..]);
        TurnUsesOneEmbed(s, p, embed, policy, guilds[0]);
        var rest := Cycle(first.settings, p, embed, policy, guilds[1..]);
        assert Cycle(s, p, embed, policy, guilds).calls == first.calls + rest.calls;
      }
    }
  }

  /**
   * Iterating over a snapshot of the registry's own keys is safe: deleting a
   * visited guild's entry never makes a later lookup miss, so the cycle never
   * reaches the KeyError or AttributeError that a missing entry would cause.
   */
  lemma {:induction false} SnapshotIsNeverDisturbed(s: Settings, p: Platform, embed: Option<Embed>, policy: EditPolicy,
                                                    guilds: seq<GuildId>)
    requires Distinct(guilds) && forall g :: g in guilds ==> g in s.values
    ensures var r := Cycle(s, p, embed, policy, guilds);
      r.outcome.Raised? ==> r.outcome.exception.Api? || r.outcome.exception == IndexError
    decreases |guilds|
  {
    if guilds != [] {
      var first := Turn(s, p, embed, policy, guilds[0]);
      assert guilds[0] in s.values;
      if first.outcome.Ok? {
        forall g | g in guilds[1..] ensures g in first.settings.values {
          assert g != guilds[0];
        }
        SnapshotIsNeverDisturbed(first.settings, p, embed, policy, guilds[1..]);
      }
    }
  }

  /** The cycle of `update_task`, over a snapshot of the registry's own key list, never misses an entry. */
  lemma UpdateTaskNeverMissesAnEntry(s: Settings, p: Platform, embed: Option<Embed>, policy: EditPolicy)
    requires Valid(s)
    ensures var r := Cycle(s, p, embed, policy, s.keys);
      r.outcome.Raised? ==> r.outcome.exception.Api? || r.outcome.exception == IndexError
  {
    SnapshotIsNeverDisturbed(s, p, embed, policy, s.keys);
  }

  /** The edits a cycle makes when every guild's message resolves. */
  function LiveEdits(s: Settings, guilds: seq<GuildId>, embed: Option<Embed>): (r: seq<Call>)
    ensures |r| == |guilds|
  {
    if guilds == [] then []
    else
      var ref := match GetSavedMessageInfo(s, guilds[0])
        case Success(Some(i)) => i
        case _ => MessageInfo(0, 0);
      [Edit(ref, embed)] + LiveEdits(s, guilds[1..], embed)
  }

  /**
   * Idempotence: when every guild's message resolves and its edit succeeds,
   * a cycle makes exactly one edit per guild, in snapshot order, and leaves
   * the registry unchanged, so a second cycle does exactly the same.
   */
  lemma {:induction false} CycleIdempotent(s: Settings, p: Platform, embed: Option<Embed>, policy: EditPolicy,
                                           guilds: seq<GuildId>)
    requires forall g :: g in guilds ==>
      exists ref :: Resolves(s, p, g, ref) && p.editResult(ref) == Done
    ensures Cycle(s, p, embed, policy, guilds) == Step(s, LiveEdits(s, guilds, embed), Ok)
    ensures Cycle(Cycle(s, p, embed, policy, guilds).settings, p, embed, policy, guilds) == Cycle(s, p, embed, policy, guilds)
    decreases |guilds|
  {
    if guilds != [] {
      assert guilds[0] in guilds;
      var ref :| Resolves(s, p, guilds[0], ref) && p.editResult(ref) == Done;
      assert Turn(s, p, embed, policy, guilds[0]) == Step(s, [Edit(ref, embed)], Ok);
      assert forall g :: g in guilds[1..] ==> g in guilds;
      CycleIdempotent(s, p, embed, policy, guilds[1..]);
    }
  }

  /** The guild's message resolves and its edit reports NotFound: the one case where the two cogs differ. */
  ghost predicate EditNotFound(s: Settings, p: Platform, guild: GuildId) {
    exists ref :: Resolves(s, p, guild, ref) && p.editResult(ref) == Failed(NotFound)
  }

  /** Unless some guild's edit reports NotFound, the competition and leaderboard cycles behave identically. */
  lemma {:induction false} PoliciesAgreeWithoutNotFound(s: Settings, p: Platform, embed: Option<Embed>,
                                                        guilds: seq<GuildId>)
    requires forall g :: g in guilds ==> !EditNotFound(s, p, g)
    ensures Cycle(s, p, embed, CatchNotFound, guilds) == Cycle(s, p, embed, PropagateAll, guilds)
    decreases |guilds|
  {
    if guilds != [] {
      var info := GetSavedMessageInfo(s, guilds[0]);
      var first := Turn(s, p, embed, CatchNotFound, guilds[0]);
      assert first == Turn(s, p, embed, PropagateAll, guilds[0]) by {
        assert guilds[0] in guilds;
        if info.Success? && info.value.Some? && ChannelInGuild(p.cache, guilds[0], info.value.value.channelId) {
          assert Resolves(s, p, guilds[0], info.value.value);
        }
      }
      if first.outcome.Ok? {
        forall g | g in guilds[1..] ensures !EditNotFound(first.settings, p, g) {
          assert g in guilds;
        }
        PoliciesAgreeWithoutNotFound(first.settings, p, embed, guilds[1..]);
      }
    }
  }

  /** The competition cog never lets NotFound from an edit escape a cycle. */
  lemma {:induction false} CatchNotFoundNeverRaisesIt(s: Settings, p: Platform, embed: Option<Embed>,
                                                      guilds: seq<GuildId>)
    ensures Cycle(s, p, embed, CatchNotFound, guilds).outcome != Raised(Api(NotFound))
    decreases |guilds|
  {
    if guilds != [] {
      var first := Turn(s, p, embed, CatchNotFound, guilds[0]);
      if first.outcome.Ok? {
        CatchNotFoundNeverRaisesIt(first.settings, p, embed, guilds[1..]);
      }
    }
  }

  /**
   * When the first guild's edit reports NotFound, the leaderboard cycle stops
   * there with the entry kept and no later guild visited, while the
   * competition cycle forgets the guild and goes on with the rest.
   */
  lemma NotFoundStopsOnlyTheLeaderboardCycle(s: Settings, p: Platform, embed: Option<Embed>,
                                             guild: GuildId, rest: seq<GuildId>, ref: MessageInfo)
    requires Resolves(s, p, guild, ref) && p.editResult(ref) == Failed(NotFound)
    ensures Cycle(s, p, embed, PropagateAll, [guild] + rest) == Step(s, [Edit(ref, embed)], Raised(Api(NotFound)))
    ensures var t := Remove(s, guild); var c := Cycle(t, p, embed, CatchNotFound, rest);
      Cycle(s, p, embed, CatchNotFound, [guild] + rest) == Step(c.settings, [Edit(ref, embed), Save(t)] + c.calls, c.outcome)
  {
    assert ([guild] + rest)[0] == guild && ([guild] + rest)[1..] == rest;
    assert Turn(s, p, embed, PropagateAll, guild) == Step(s, [Edit(ref, embed)], Raised(Api(NotFound)));
    var t := Remove(s, guild);
    assert Turn(s, p, embed, CatchNotFound, guild) == Step(t, [Edit(ref, embed), Save(t)], Ok);
  }
}
