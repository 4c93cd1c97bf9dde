/**
 * bot/competition.py: the competition poller. It keeps one live message per
 * guild in `config_settings`, caches the last rendered embed in `embed`, and
 * every cycle edits every registered guild's message with that embed.
 */
module CompetitionCog {
  import opened Wrappers
  import opened OrderedDict
  import opened Discord
  import opened GuildRegistry
  import opened Reconciler
  import opened TftSchema

  /** What `update` learned from the competition site this time. */
  datatype Poll =
    | NoActiveCompetition      // `find_active_competition` found nothing in progress
    | Rendered(embed: Embed)   // the embed built for the active competition
    | RenderFailed             // fetching, scraping or rendering raised

  /** The cached embed after `update`: a new one when rendered, otherwise the one kept from before. */
  function AfterPoll(cached: Option<Embed>, poll: Poll): (e: Option<Embed>)
    ensures poll.Rendered? ==> e == Some(poll.embed)
    ensures !poll.Rendered? ==> e == cached
  {
    if poll.Rendered? then Some(poll.embed) else cached
  }

  /** One JSON object of the leaderboard reply's `data` list. */
  type Record = map<string, Value>

  /** What the leaderboard endpoint answered. */
  datatype Reply =
    | Unreachable                  // the request or its JSON decoding raised
    | Answered(data: Option<seq<Record>>)   // the decoded object; None when it has no `data` key

  /** The keys `convert` reads. */
  predicate Convertible(o: Record) {
    "nickname" in o && "returnPct" in o && "backPct" in o && "prize" in o
  }

  /** `convert(o, rank)`. */
  function Converted(o: Record, rank: int): (e: CompetitionEntry)
    requires Convertible(o)
  {
    CompetitionEntry(rank, o["nickname"], o["returnPct"], o["backPct"], o["prize"])
  }

  /**
   * `fetch_competition_rankings`: the records converted in order, ranked from
   * 1. Any exception is logged and swallowed, so a record missing a key ends
   * the list there, and an unreachable endpoint gives the empty list.
   */
  method FetchCompetitionRankings(reply: Reply) returns (container: seq<CompetitionEntry>)
    ensures reply.Unreachable? || reply.data.None? ==> container == []
    ensures reply.Answered? && reply.data.Some? ==>
      var records := reply.data.value;
      && |container| <= |records|
      && (forall k :: 0 <= k < |container| ==>
            Convertible(records[k]) && container[k] == Converted(records[k], k + 1))
      && (|container| < |records| ==> !Convertible(records[|container|]))
  {
    container := [];
    if reply.Unreachable? || reply.data.None? {
      return;
    }
    var records := reply.data.value;
    var idx := 0;
    while idx < |records|
      invariant 0 <= idx <= |records| && |container| == idx
      invariant forall k :: 0 <= k < idx ==> Convertible(records[k]) && container[k] == Converted(records[k], k + 1)
    {
      var o := records[idx];
      if !Convertible(o) {
        return;
      }
      container := container + [Converted(o, idx + 1)];
      idx := idx + 1;
    }
  }

  const NoCompetitionsReply: string := "No Competitions found."

  class Cog {
    var configSettings: Settings
    var embed: Option<Embed>
    /** Every platform request and every `save_settings`, in order. */
    ghost var trace: seq<Call>

    ghost predicate Valid()
      reads this
    {
      OrderedDict.Valid(configSettings)
    }

    /** The cog as constructed, with the registry `ConfigMixin` loaded from disk. */
    constructor (loaded: Settings)
      requires OrderedDict.Valid(loaded)
      ensures Valid() && configSettings == loaded && embed == None && trace == []
    {
      configSettings := loaded;
      embed := None;
      trace := [];
    }

    // The helpers below (`_new_message`, `_update_guild_message` and the
    // steps of the `update_task` loop) neither require nor ensure `Valid()`:
    // each states its whole new registry through reconciler.dfy, and the
    // entry points re-establish `Valid()` from the `*KeepsValid` lemmas.

    /** `save_settings`: persists the registry as it is now. */
    method SaveSettings()
      modifies this
      ensures configSettings == old(configSettings) && embed == old(embed)
      ensures trace == old(trace) + [Save(configSettings)]
    {
      trace := trace + [Save(configSettings)];
    }

    /** `_delete_message`: Forbidden and NotFound are logged and swallowed. */
    method DeleteMessage(p: Platform, message: MessageInfo) returns (outcome: Outcome)
      modifies this
      ensures configSettings == old(configSettings) && embed == old(embed)
      ensures trace == old(trace) + [Delete(message)]
      ensures outcome == DeleteOutcome(p.deleteResult(message))
    {
      trace := trace + [Delete(message)];
      match p.deleteResult(message)
      case Done => outcome := Ok;
      case Failed(Forbidden) => outcome := Ok;
      case Failed(NotFound) => outcome := Ok;
      case Failed(OtherHttp) => outcome := Raised(Api(OtherHttp));
    }

    /** `_new_message`: replace the guild's live message by `info`. */
    method NewMessage(p: Platform, guild: GuildId, info: MessageInfo) returns (outcome: Outcome)
      modifies this
      ensures embed == old(embed)
      ensures var r := Reconciler.NewMessage(old(configSettings), p, guild, info);
        configSettings == r.settings && trace == old(trace) + r.calls && outcome == r.outcome
    {
      var oldInfo := GetSavedMessageInfo(configSettings, guild);
      if oldInfo.Failure? {
        return Raised(oldInfo.error);
      }
      if oldInfo.value.Some? {
        var oldMessage := FetchSavedMessage(p.cache, guild, oldInfo.value.value);
        if oldMessage.Some? {
          outcome := DeleteMessage(p, oldMessage.value);
          if outcome.Raised? {
            return;
          }
        }
      }
      configSettings := Put(configSettings, guild, Typed(info));
      SaveSettings();
      outcome := Ok;
    }

    /** `del config_settings[str(guild)]` followed by `save_settings`. */
    method ForgetGuild(guild: GuildId) returns (outcome: Outcome)
      modifies this
      ensures embed == old(embed)
      ensures var r := Forget(old(configSettings), guild, []);
        configSettings == r.settings && trace == old(trace) + r.calls && outcome == r.outcome
    {
      if guild !in configSettings.values {
        return Raised(KeyError);
      }
      configSettings := Remove(configSettings, guild);
      SaveSettings();
      outcome := Ok;
    }

    /** `_update_guild_message`: edit in place; forget the guild when its message is gone. */
    method UpdateGuildMessage(p: Platform, guild: GuildId, info: Option<MessageInfo>, e: Option<Embed>)
      returns (outcome: Outcome)
      modifies this
      ensures embed == old(embed)
      ensures var r := UpdateGuild(old(configSettings), p, guild, info, e, CatchNotFound);
        configSettings == r.settings && trace == old(trace) + r.calls && outcome == r.outcome
    {
      var message: Option<MessageInfo>;
      if info.None? {
        if guild in p.cache {
          return Raised(AttributeError);
        }
        message := None;
      } else {
        message := FetchSavedMessage(p.cache, guild, info.value);
      }
      if message.None? {
        outcome := ForgetGuild(guild);
        return;
      }
      trace := trace + [Edit(message.value, e)];
      match p.editResult(message.value)
      case Done =>
        outcome := Ok;
      case Failed(NotFound) =>
        outcome := ForgetGuild(guild);
      case Failed(error) =>
        outcome := Raised(Api(error));
    }

    /** `update`: refresh the cached embed; with no active competition the previous embed is kept. */
    method Update(poll: Poll) returns (outcome: Outcome)
      modifies this
      ensures configSettings == old(configSettings) && trace == old(trace)
      ensures embed == AfterPoll(old(embed), poll)
      ensures outcome == if poll.RenderFailed? then Raised(RenderError) else Ok
    {
      match poll
      case NoActiveCompetition =>
        outcome := Ok;
      case Rendered(rendered) =>
        embed := Some(rendered);
        outcome := Ok;
      case RenderFailed =>
        outcome := Raised(RenderError);
    }

    /**
     * `update_task`: refresh the embed, then update every registered guild's
     * message with that one cached embed.
     */
    method UpdateTask(p: Platform, poll: Poll) returns (outcome: Outcome)
      requires Valid()
      modifies this
      ensures Valid() && embed == AfterPoll(old(embed), poll)
      ensures poll.RenderFailed? ==>
        outcome == Raised(RenderError) && configSettings == old(configSettings) && trace == old(trace)
      ensures !poll.RenderFailed? ==>
        var r := Cycle(old(configSettings), p, embed, CatchNotFound, old(configSettings).keys);
        configSettings == r.settings && trace == old(trace) + r.calls && outcome == r.outcome
    {
      outcome := Update(poll);
      if outcome.Raised? {
        return;
      }
      CycleStart(configSettings, p, embed, CatchNotFound, configSettings.keys);
      CycleKeepsValid(configSettings, p, embed, CatchNotFound, configSettings.keys);
      outcome := UpdateGuilds(p, Cycle(configSettings, p, embed, CatchNotFound, configSettings.keys));
    }

    /**
     * One pass of the loop body of `update_task`: look up the guild's
     * location and update its message. Carried out on turn `i` of the cycle
     * `whole`, it either ends that cycle or leaves it resumable at `i + 1`.
     */
    method VisitGuild(p: Platform, snapshot: seq<GuildId>, i: nat, ghost whole: Step, ghost done: seq<Call>)
      returns (outcome: Outcome, ghost calls: seq<Call>)
      requires i < |snapshot|
      requires Resumes(whole, configSettings, p, embed, CatchNotFound, snapshot, i, done)
      modifies this
      ensures embed == old(embed) && trace == old(trace) + calls
      ensures outcome.Raised? ==> whole == Step(configSettings, done + calls, outcome)
      ensures outcome.Ok? ==> Resumes(whole, configSettings, p, embed, CatchNotFound, snapshot, i + 1, done + calls)
    {
      CycleTurn(whole, configSettings, p, embed, CatchNotFound, snapshot, i, done);
      ghost var step := Turn(configSettings, p, embed, CatchNotFound, snapshot[i]);
      calls := step.calls;
      var info := GetSavedMessageInfo(configSettings, snapshot[i]);
      if info.Failure? {
        return Raised(info.error), calls;
      }
      outcome := UpdateGuildMessage(p, snapshot[i], info.value, embed);
    }

    /**
     * The loop of `update_task` over a snapshot of the registry's keys.
     * `whole` is the cycle the loop is to carry out.
     */
    method UpdateGuilds(p: Platform, ghost whole: Step) returns (outcome: Outcome)
      requires Resumes(whole, configSettings, p, embed, CatchNotFound, configSettings.keys, 0, [])
      modifies this
      ensures embed == old(embed)
      ensures configSettings == whole.settings && trace == old(trace) + whole.calls && outcome == whole.outcome
    {
      var snapshot := configSettings.keys;
      ghost var done: seq<Call> := [];
      var i := 0;
      while i < |snapshot|
        invariant 0 <= i <= |snapshot| && embed == old(embed)
        invariant trace == old(trace) + done
        invariant Resumes(whole, configSettings, p, embed, CatchNotFound, snapshot, i, done)
      {
        ghost var calls;
        outcome, calls := VisitGuild(p, snapshot, i, whole, done);
        done := done + calls;
        if outcome.Raised? {
          return;
        }
        i := i + 1;
      }
      CycleDone(whole, configSettings, p, embed, CatchNotFound, snapshot, done);
      outcome := Ok;
    }

    /**
     * `competition_cmd`: render the embed if none is cached; with still none,
     * reply "No Competitions found." and leave the registry alone; otherwise
     * post the embed in the invoking channel and register the new message.
     * `sent` is what the post (or the reply) answers; a post that raises
     * escapes before the registry is touched.
     */
    method CompetitionCmd(p: Platform, poll: Poll, guild: GuildId, channel: ChannelId, sent: SendResult)
      returns (outcome: Outcome)
      requires Valid()
      modifies this
      ensures Valid()
      ensures old(embed).None? && poll.RenderFailed? ==>
        outcome == Raised(RenderError) && configSettings == old(configSettings) && trace == old(trace)
      ensures old(embed).None? && poll.NoActiveCompetition? ==>
        && outcome == (if sent.SendFailed? then Raised(Api(sent.error)) else Ok)
        && configSettings == old(configSettings) && embed == None
        && trace == old(trace) + [Send(channel, Text(NoCompetitionsReply))]
      ensures old(embed).Some? || poll.Rendered? ==>
        var shown := if old(embed).Some? then old(embed).value else poll.embed;
        && embed == Some(shown)
        && (sent.SendFailed? ==>
              && outcome == Raised(Api(sent.error)) && configSettings == old(configSettings)
              && trace == old(trace) + [Send(channel, Rich(shown))])
        && (sent.Sent? ==>
              var r := Reconciler.NewMessage(old(configSettings), p, guild, MessageInfo(channel, sent.id));
              && configSettings == r.settings && outcome == r.outcome
              && trace == old(trace) + [Send(channel, Rich(shown))] + r.calls)
    {
      if embed.None? {
        outcome := Update(poll);
        if outcome.Raised? {
          return;
        }
      }
      if embed.None? {
        trace := trace + [Send(channel, Text(NoCompetitionsReply))];
        return if sent.SendFailed? then Raised(Api(sent.error)) else Ok;
      }
      trace := trace + [Send(channel, Rich(embed.value))];
      if sent.SendFailed? {
        return Raised(Api(sent.error));
      }
      NewMessageKeepsValid(configSettings, p, guild, MessageInfo(channel, sent.id));
      outcome := NewMessage(p, guild, MessageInfo(channel, sent.id));
    }
  }
}
