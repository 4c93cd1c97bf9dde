/**
 * bot/leaderboard.py: the monthly leaderboard poller. The same registry of one
 * live message per guild as the competition cog, with two differences: an
 * edit that fails is never caught, and `update` always replaces the embed
 * (there is no "nothing to show" case).
 */
module LeaderboardCog {
  import opened Wrappers
  import opened OrderedDict
  import opened Discord
  import opened GuildRegistry
  import opened Reconciler

  // ---------------------------------------------------------------------------
  // _fetch_leaderboard_html

  /**
   * `_fetch_leaderboard_html` as written. `attempts` are the site's answers
   * to successive requests (None: the request raised). A failed request is
   * retried after a pause, but the retry's result is dropped, so the caller
   * gets the page only when the very first request succeeds. When every
   * listed request fails the result is None too, where the program would
   * still be retrying; either way the caller gets no page.
   */
  function FetchAsWritten(attempts: seq<Option<string>>): (r: Option<string>)
    ensures r.Some? <==> |attempts| > 0 && attempts[0].Some?
    ensures r.Some? ==> r == attempts[0]
  {
    if attempts == [] then None
    else if attempts[0].Some? then attempts[0]
    else
      var retried := FetchAsWritten(attempts[1..]);
      None
  }

  /** Request `k` is the first one that gets an answer. */
  ghost predicate FirstAnswer(attempts: seq<Option<string>>, k: int) {
    && 0 <= k < |attempts| && attempts[k].Some?
    && forall j :: 0 <= j < k ==> attempts[j].None?
  }

  /**
   * The retry as evidently intended: the page of the first request that gets
   * an answer. None stands for a site that has not answered any of the
   * requests made (the real loop would still be retrying).
   */
  function FetchLeaderboardHtml(attempts: seq<Option<string>>): (r: Option<string>)
    ensures r.Some? ==> r in attempts
  {
    if attempts == [] then None
    else if attempts[0].Some? then attempts[0]
    else FetchLeaderboardHtml(attempts[1..])
  }

  /** The intended fetch returns a page exactly when some request is answered, and it is the first answer. */
  lemma {:induction false} FetchReturnsFirstAnswer(attempts: seq<Option<string>>)
    ensures var r := FetchLeaderboardHtml(attempts);
      && (r.Some? <==> exists k :: 0 <= k < |attempts| && attempts[k].Some?)
      && (r.Some? ==> exists k :: FirstAnswer(attempts, k) && r == attempts[k])
  {
    if attempts != [] {
      if attempts[0].Some? {
        assert FirstAnswer(attempts, 0);
      } else {
        FetchReturnsFirstAnswer(attempts[1..]);
        var r := FetchLeaderboardHtml(attempts[1..]);
        if r.Some? {
          var k :| FirstAnswer(attempts[1..], k) && r == attempts[1..][k];
          forall j | 0 <= j < k + 1 ensures attempts[j].None? {
            if j > 0 {
              assert attempts[j] == attempts[1..][j - 1];
            }
          }
          assert FirstAnswer(attempts, k + 1);
        }
        if exists k :: 0 <= k < |attempts| && attempts[k].Some? {
          var k :| 0 <= k < |attempts| && attempts[k].Some?;
          assert attempts[1..][k - 1].Some?;
        }
      }
    }
  }

  /** One failed request followed by a good one: the page as written is lost, the intended fetch returns it. */
  lemma RetriedPageIsDropped()
    ensures FetchAsWritten([None, Some("<table>")]) == None
    ensures FetchLeaderboardHtml([None, Some("<table>")]) == Some("<table>")
  {
    assert [None, Some("<table>")][1..] == [Some("<table>")];
  }

  /**
   * What `update` builds from the site: `render` stands for
   * `parse_leaderboard` followed by `make_leaderboard_embed` (None: they
   * raised). The page comes from the fetch as written, so a fetch that got
   * no page (`parse_leaderboard(None)` raises) leaves nothing to render.
   * An embed is built exactly when the first request is answered and its
   * page renders, and it is that page's embed.
   */
  function Refreshed(attempts: seq<Option<string>>, render: string -> Option<Embed>): (e: Option<Embed>)
    ensures e.Some? <==> |attempts| > 0 && attempts[0].Some? && render(attempts[0].value).Some?
    ensures e.Some? ==> e == render(attempts[0].value)
  {
    var page := FetchAsWritten(attempts);
    if page.Some? then render(page.value) else None
  }

  /** A page answered only on the retry is never rendered, whatever it would render to. */
  lemma RetriedPageIsNotRendered(page: string, render: string -> Option<Embed>)
    ensures Refreshed([None, Some(page)], render) == None
  {
  }

  // ---------------------------------------------------------------------------
  // The cog

  class Cog {
    var configSettings: Settings
    var embed: Option<Embed>
    /** Every platform request and every `save_settings`, in order. */
    ghost var trace: seq<Call>

    ghost predicate Valid()
      reads this
    {
      OrderedDict.Valid(configSettings)
    }

    /** The cog as constructed, with the registry `ConfigMixin` loaded from disk. */
    constructor (loaded: Settings)
      requires OrderedDict.Valid(loaded)
      ensures Valid() && configSettings == loaded && embed == None && trace == []
    {
      configSettings := loaded;
      embed := None;
      trace := [];
    }

    // The helpers below (`_new_message`, `_update_guild_message` and the
    // steps of the `update_task` loop) neither require nor ensure `Valid()`:
    // each states its whole new registry through reconciler.dfy, and the
    // entry points re-establish `Valid()` from the `*KeepsValid` lemmas.

    /** `save_settings`: persists the registry as it is now. */
    method SaveSettings()
      modifies this
      ensures configSettings == old(configSettings) && embed == old(embed)
      ensures trace == old(trace) + [Save(configSettings)]
    {
      trace := trace + [Save(configSettings)];
    }

    /** `_delete_message`: Forbidden and NotFound are logged and swallowed. */
    method DeleteMessage(p: Platform, message: MessageInfo) returns (outcome: Outcome)
      modifies this
      ensures configSettings == old(configSettings) && embed == old(embed)
      ensures trace == old(trace) + [Delete(message)]
      ensures outcome == DeleteOutcome(p.deleteResult(message))
    {
      trace := trace + [Delete(message)];
      match p.deleteResult(message)
      case Done => outcome := Ok;
      case Failed(Forbidden) => outcome := Ok;
      case Failed(NotFound) => outcome := Ok;
      case Failed(OtherHttp) => outcome := Raised(Api(OtherHttp));
    }

    /** `_new_message`: replace the guild's live message by `info`. */
    method NewMessage(p: Platform, guild: GuildId, info: MessageInfo) returns (outcome: Outcome)
      modifies this
      ensures embed == old(embed)
      ensures var r := Reconciler.NewMessage(old(configSettings), p, guild, info);
        configSettings == r.settings && trace == old(trace) + r.calls && outcome == r.outcome
    {
      var oldInfo := GetSavedMessageInfo(configSettings, guild);
      if oldInfo.Failure? {
        return Raised(oldInfo.error);
      }
      if oldInfo.value.Some? {
        var oldMessage := FetchSavedMessage(p.cache, guild, oldInfo.value.value);
        if oldMessage.Some? {
          outcome := DeleteMessage(p, oldMessage.value);
          if outcome.Raised? {
            return;
          }
        }
      }
      configSettings := Put(configSettings, guild, Typed(info));
      SaveSettings();
      outcome := Ok;
    }

    /** `del config_settings[str(guild)]` followed by `save_settings`. */
    method ForgetGuild(guild: GuildId) returns (outcome: Outcome)
      modifies this
      ensures embed == old(embed)
      ensures var r := Forget(old(configSettings), guild, []);
        configSettings == r.settings && trace == old(trace) + r.calls && outcome == r.outcome
    {
      if guild !in configSettings.values {
        return Raised(KeyError);
      }
      configSettings := Remove(configSettings, guild);
      SaveSettings();
      outcome := Ok;
    }

    /** `_update_guild_message`: forget an unresolvable message; otherwise edit it and let any error escape. */
    method UpdateGuildMessage(p: Platform, guild: GuildId, info: Option<MessageInfo>, e: Option<Embed>)
      returns (outcome: Outcome)
      modifies this
      ensures embed == old(embed)
      ensures var r := UpdateGuild(old(configSettings), p, guild, info, e, PropagateAll);
        configSettings == r.settings && trace == old(trace) + r.calls && outcome == r.outcome
    {
      var message: Option<MessageInfo>;
      if info.None? {
        if guild in p.cache {
          return Raised(AttributeError);
        }
        message := None;
      } else {
        message := FetchSavedMessage(p.cache, guild, info.value);
      }
      if message.None? {
        outcome := ForgetGuild(guild);
        return;
      }
      trace := trace + [Edit(message.value, e)];
      match p.editResult(message.value)
      case Done =>
        outcome := Ok;
      case Failed(error) =>
        outcome := Raised(Api(error));
    }

    /**
     * `update`: fetch the page and render it. On success the embed is
     * replaced; on failure the exception escapes and the cached embed stays.
     */
    method Update(attempts: seq<Option<string>>, render: string -> Option<Embed>) returns (outcome: Outcome)
      modifies this
      ensures configSettings == old(configSettings) && trace == old(trace)
      ensures var rendered := Refreshed(attempts, render);
        && (rendered.Some? ==> outcome == Ok && embed == rendered)
        && (rendered.None? ==> outcome == Raised(RenderError) && embed == old(embed))
    {
      var page := FetchAsWritten(attempts);
      if page.None? {
        return Raised(RenderError);
      }
      var rendered := render(page.value);
      if rendered.None? {
        return Raised(RenderError);
      }
      embed := rendered;
      outcome := Ok;
    }

    /** `update_task`: refresh the embed, then update every registered guild's message with it. */
    method UpdateTask(p: Platform, attempts: seq<Option<string>>, render: string -> Option<Embed>)
      returns (outcome: Outcome)
      requires Valid()
      modifies this
      ensures Valid()
      ensures Refreshed(attempts, render).None? ==>
        && outcome == Raised(RenderError) && embed == old(embed)
        && configSettings == old(configSettings) && trace == old(trace)
      ensures Refreshed(attempts, render).Some? ==>
        var r := Cycle(old(configSettings), p, embed, PropagateAll, old(configSettings).keys);
        && embed == Refreshed(attempts, render)
        && configSettings == r.settings && trace == old(trace) + r.calls && outcome == r.outcome
    {
      outcome := Update(attempts, render);
      if outcome.Raised? {
        return;
      }
      CycleStart(configSettings, p, embed, PropagateAll, configSettings.keys);
      CycleKeepsValid(configSettings, p, embed, PropagateAll, configSettings.keys);
      outcome := UpdateGuilds(p, Cycle(configSettings, p, embed, PropagateAll, configSettings.keys));
    }

    /**
     * One pass of the loop body of `update_task`: look up the guild's
     * location and update its message. Carried out on turn `i` of the cycle
     * `whole`, it either ends that cycle or leaves it resumable at `i + 1`.
     */
    method VisitGuild(p: Platform, snapshot: seq<GuildId>, i: nat, ghost whole: Step, ghost done: seq<Call>)
      returns (outcome: Outcome, ghost calls: seq<Call>)
      requires i < |snapshot|
      requires Resumes(whole, configSettings, p, embed, PropagateAll, snapshot, i, done)
      modifies this
      ensures embed == old(embed) && trace == old(trace) + calls
      ensures outcome.Raised? ==> whole == Step(configSettings, done + calls, outcome)
      ensures outcome.Ok? ==> Resumes(whole, configSettings, p, embed, PropagateAll, snapshot, i + 1, done + calls)
    {
      CycleTurn(whole, configSettings, p, embed, PropagateAll, snapshot, i, done);
      ghost var step := Turn(configSettings, p, embed, PropagateAll, snapshot[i]);
      calls := step.calls;
      var info := GetSavedMessageInfo(configSettings, snapshot[i]);
      if info.Failure? {
        return Raised(info.error), calls;
      }
      outcome := UpdateGuildMessage(p, snapshot[i], info.value, embed);
    }

    /**
     * The loop of `update_task` over a snapshot of the registry's keys.
     * `whole` is the cycle the loop is to carry out.
     */
    method UpdateGuilds(p: Platform, ghost whole: Step) returns (outcome: Outcome)
      requires Resumes(whole, configSettings, p, embed, PropagateAll, configSettings.keys, 0, [])
      modifies this
      ensures embed == old(embed)
      ensures configSettings == whole.settings && trace == old(trace) + whole.calls && outcome == whole.outcome
    {
      var snapshot := configSettings.keys;
      ghost var done: seq<Call> := [];
      var i := 0;
      while i < |snapshot|
        invariant 0 <= i <= |snapshot| && embed == old(embed)
        invariant trace == old(trace) + done
        invariant Resumes(whole, configSettings, p, embed, PropagateAll, snapshot, i, done)
      {
        ghost var calls;
        outcome, calls := VisitGuild(p, snapshot, i, whole, done);
        done := done + calls;
        if outcome.Raised? {
          return;
        }
        i := i + 1;
      }
      CycleDone(whole, configSettings, p, embed, PropagateAll, snapshot, done);
      outcome := Ok;
    }

    /**
     * `leaderboard_cmd`: render the embed if none is cached, post it in the
     * invoking channel and register the new message. There is no guard for a
     * missing embed: once `update` returns, the embed is always set. `sent`
     * is what the post answers; a post that raises escapes before the
     * registry is touched.
     */
    method LeaderboardCmd(p: Platform, attempts: seq<Option<string>>, render: string -> Option<Embed>,
                          guild: GuildId, channel: ChannelId, sent: SendResult)
      returns (outcome: Outcome)
      requires Valid()
      modifies this
      ensures Valid()
      ensures old(embed).None? && Refreshed(attempts, render).None? ==>
        && outcome == Raised(RenderError) && embed == None
        && configSettings == old(configSettings) && trace == old(trace)
      ensures old(embed).Some? || Refreshed(attempts, render).Some? ==>
        var shown := if old(embed).Some? then old(embed).value else Refreshed(attempts, render).value;
        && embed == Some(shown)
        && (sent.SendFailed? ==>
              && outcome == Raised(Api(sent.error)) && configSettings == old(configSettings)
              && trace == old(trace) + [Send(channel, Rich(shown))])
        && (sent.Sent? ==>
              var r := Reconciler.NewMessage(old(configSettings), p, guild, MessageInfo(channel, sent.id));
              && configSettings == r.settings && outcome == r.outcome
              && trace == old(trace) + [Send(channel, Rich(shown))] + r.calls)
    {
      if embed.None? {
        outcome := Update(attempts, render);
        if outcome.Raised? {
          return;
        }
      }
      trace := trace + [Send(channel, Rich(embed.value))];
      if sent.SendFailed? {
        return Raised(Api(sent.error));
      }
      NewMessageKeepsValid(configSettings, p, guild, MessageInfo(channel, sent.id));
      outcome := NewMessage(p, guild, MessageInfo(channel, sent.id));
    }
  }
}
