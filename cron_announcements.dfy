/**
 * bot/cronannouncements: scheduled announcements. Each announcement names a
 * crontab schedule, a guild, a channel and a text; the cog starts one cron
 * job per announcement and keeps the jobs of each guild in a set, so that it
 * can stop them all and start fresh ones when the announcements are reloaded.
 */
module CronAnnouncements {
  import opened Wrappers
  import opened Discord

  datatype Announcement = Announcement(crontabFmt: string, guildId: GuildId, channelId: ChannelId, content: string)

  /** A message the bot posts: the channel and the text. */
  datatype Outgoing = Outgoing(channel: ChannelId, content: string)

  /**
   * An `aiocron.Cron` handle, started on creation, that fires
   * `make_announcement(announcement)` on its schedule until it is stopped.
   */
  class Cron {
    const announcement: Announcement
    var running: bool

    constructor(a: Announcement)
      ensures announcement == a && running
    {
      announcement := a;
      running := true;
    }

    method Stop()
      modifies this
      ensures !running
    {
      running := false;
    }
  }

  // ---------------------------------------------------------------------------
  // The job registry as a value

  type Jobs = map<GuildId, set<Cron>>

  /** `jobs.get(guild, set())`. */
  function JobsOf(jobs: Jobs, guild: GuildId): set<Cron> {
    if guild in jobs then jobs[guild] else {}
  }

  /** `_add_job`: the guild's set, created empty if need be, with `job` added. */
  function Added(jobs: Jobs, guild: GuildId, job: Cron): (r: Jobs)
    ensures r.Keys == jobs.Keys + {guild}
    ensures JobsOf(r, guild) == JobsOf(jobs, guild) + {job}
    ensures forall g :: g != guild ==> JobsOf(r, g) == JobsOf(jobs, g)
  {
    jobs[guild := JobsOf(jobs, guild) + {job}]
  }

  /** The registry after `_add_job` for each of `started` in turn, under its announcement's guild. */
  function AddedAll(jobs: Jobs, started: seq<Cron>): Jobs
    decreases |started|
  {
    if started == [] then jobs
    else AddedAll(Added(jobs, started[0].announcement.guildId, started[0]), started[1..])
  }

  /**
   * What registering `started` amounts to: a guild holds its old jobs and the
   * started jobs of its announcements, nothing else, and a guild gets a key
   * only if it had one or one of the started jobs is for it.
   */
  lemma {:induction false} AddedAllMeaning(jobs: Jobs, started: seq<Cron>, g: GuildId, j: Cron)
    ensures j in JobsOf(AddedAll(jobs, started), g) <==>
      j in JobsOf(jobs, g) || (j in started && j.announcement.guildId == g)
    ensures g in AddedAll(jobs, started) <==>
      g in jobs || exists k :: 0 <= k < |started| && started[k].announcement.guildId == g
    decreases |started|
  {
    if started != [] {
      var first := started[0];
      AddedAllMeaning(Added(jobs, first.announcement.guildId, first), started[1..], g, j);
      assert started == [first] + started[1..];
      if g in AddedAll(jobs, started) && g !in jobs && g != first.announcement.guildId {
        var k :| 0 <= k < |started[1..]| && started[1..][k].announcement.guildId == g;
        assert started[k + 1].announcement.guildId == g;
      }
      if exists k :: 0 <= k < |started| && started[k].announcement.guildId == g {
        var k :| 0 <= k < |started| && started[k].announcement.guildId == g;
        if k > 0 {
          assert started[1..][k - 1].announcement.guildId == g;
        }
      }
    }
  }

  /** `_remove_job`: the job leaves the guild's set if it is there; no key is ever created. */
  function Removed(jobs: Jobs, guild: GuildId, job: Cron): (r: Jobs)
    ensures r.Keys == jobs.Keys
    ensures JobsOf(r, guild) == JobsOf(jobs, guild) - {job}
    ensures forall g :: g != guild ==> JobsOf(r, g) == JobsOf(jobs, g)
  {
    if job in JobsOf(jobs, guild) then jobs[guild := jobs[guild] - {job}] else jobs
  }

  /** Removing a job just added to a guild that did not hold it gives back that guild's old set. */
  lemma RemoveUndoesAdd(jobs: Jobs, guild: GuildId, job: Cron)
    requires job !in JobsOf(jobs, guild)
    ensures JobsOf(Removed(Added(jobs, guild, job), guild, job), guild) == JobsOf(jobs, guild)
    ensures Removed(Added(jobs, guild, job), guild, job).Keys == jobs.Keys + {guild}
  {
  }

  // ---------------------------------------------------------------------------
  // Selecting announcements

  /** The announcements of `guild`, in stored order. */
  function ForGuild(anns: seq<Announcement>, guild: GuildId): (r: seq<Announcement>)
    ensures |r| <= |anns|
    ensures forall a :: a in r ==> a in anns && a.guildId == guild
  {
    if anns == [] then []
    else if anns[0].guildId == guild then [anns[0]] + ForGuild(anns[1..], guild)
    else ForGuild(anns[1..], guild)
  }

  /** Selecting from two lists one after the other is selecting from each: the stored order is kept. */
  lemma {:induction false} ForGuildConcat(a: seq<Announcement>, b: seq<Announcement>, guild: GuildId)
    ensures ForGuild(a + b, guild) == ForGuild(a, guild) + ForGuild(b, guild)
  {
    if a != [] {
      assert (a + b)[1..] == a[1..] + b;
      ForGuildConcat(a[1..], b, guild);
    } else {
      assert a + b == b;
    }
  }

  /** Every announcement of the guild is selected, as many times as it is stored. */
  lemma {:induction false} ForGuildSelects(anns: seq<Announcement>, guild: GuildId)
    ensures forall a: Announcement :: a.guildId == guild ==> multiset(ForGuild(anns, guild))[a] == multiset(anns)[a]
  {
    if anns != [] {
      ForGuildSelects(anns[1..], guild);
      assert anns == [anns[0]] + anns[1..];
    }
  }

  /** `make_announcement`: the content goes to the channel only when the bot finds the guild and the channel in it. */
  function MakeAnnouncement(cache: Cache, a: Announcement): (r: Option<Outgoing>)
    ensures r.Some? <==> ChannelInGuild(cache, a.guildId, a.channelId)
    ensures r.Some? ==> r.value == Outgoing(a.channelId, a.content)
  {
    if a.guildId !in cache then None
    else if a.channelId !in cache[a.guildId] then None
    else Some(Outgoing(a.channelId, a.content))
  }

  // ---------------------------------------------------------------------------
  // The cog

  class Cog {
    var jobs: Jobs
    var announcements: seq<Announcement>

    constructor()
      ensures jobs == map[] && announcements == []
    {
      jobs := map[];
      announcements := [];
    }

    /** `_add_job`. */
    method AddJob(guild: GuildId, job: Cron)
      modifies this
      ensures jobs == Added(old(jobs), guild, job) && announcements == old(announcements)
    {
      if guild !in jobs {
        jobs := jobs[guild := {}];
      }
      jobs := jobs[guild := jobs[guild] + {job}];
    }

    /** `_remove_job`. */
    method RemoveJob(guild: GuildId, job: Cron)
      modifies this
      ensures jobs == Removed(old(jobs), guild, job) && announcements == old(announcements)
    {
      if job in JobsOf(jobs, guild) {
        jobs := jobs[guild := jobs[guild] - {job}];
      }
    }

    /** `stop_jobs`: every job of the guild is stopped; the registry itself is left as it is. */
    method StopJobs(guild: GuildId)
      modifies JobsOf(jobs, guild)
      ensures forall job :: job in JobsOf(jobs, guild) ==> !job.running
    {
      var remaining := JobsOf(jobs, guild);
      while remaining != {}
        invariant remaining <= JobsOf(jobs, guild)
        invariant forall job :: job in JobsOf(jobs, guild) && job !in remaining ==> !job.running
        decreases remaining
      {
        var job :| job in remaining;
        job.Stop();
        remaining := remaining - {job};
      }
    }

    /** `_start_job`: a new running job for the announcement, registered under its guild. */
    method StartJob(a: Announcement) returns (ghost job: Cron)
      modifies this
      ensures fresh(job) && job.running && job.announcement == a
      ensures jobs == Added(old(jobs), a.guildId, job) && announcements == old(announcements)
    {
      var cron := new Cron(a);
      AddJob(a.guildId, cron);
      job := cron;
    }

    /** `start_jobs`: one new running job per announcement, in order, each registered under its guild. */
    method StartJobs(anns: seq<Announcement>) returns (ghost started: seq<Cron>)
      modifies this
      ensures |started| == |anns|
      ensures forall k :: 0 <= k < |anns| ==>
        fresh(started[k]) && started[k].running && started[k].announcement == anns[k]
      ensures AllDifferent(started)
      ensures jobs == AddedAll(old(jobs), started) && announcements == old(announcements)
    {
      started := [];
      var i := 0;
      while i < |anns|
        invariant 0 <= i <= |anns| && |started| == i
        invariant forall k :: 0 <= k < i ==>
          fresh(started[k]) && started[k].running && started[k].announcement == anns[k]
        invariant AllDifferent(started)
        invariant jobs == AddedAll(old(jobs), started) && announcements == old(announcements)
      {
        var job := StartJob(anns[i]);
        AddedAllSnoc(old(jobs), started, job);
        started := started + [job];
        i := i + 1;
      }
    }

    /**
     * `restart_jobs`: the guild's registered jobs are stopped (and stay in
     * its set), then one new running job per announcement of the guild is
     * started and registered, in stored order.
     */
    method RestartJobs(guild: GuildId) returns (ghost started: seq<Cron>)
      modifies this, JobsOf(jobs, guild)
      ensures forall job :: job in JobsOf(old(jobs), guild) ==> !job.running
      ensures var anns := ForGuild(old(announcements), guild);
        && |started| == |anns|
        && forall k :: 0 <= k < |anns| ==>
             fresh(started[k]) && started[k].running && started[k].announcement == anns[k]
      ensures AllDifferent(started)
      ensures jobs == AddedAll(old(jobs), started) && announcements == old(announcements)
    {
      var anns := GetGuildAnnouncements(guild);
      StopJobs(guild);
      started := StartJobs(anns);
    }

    /**
     * `start_all_jobs`: with no announcements yet, they are loaded first
     * (`file` is what the file holds; None when it is not valid JSON, which
     * raises before anything changes); then one job is started per
     * announcement, whether or not jobs were started for them before.
     */
    method StartAllJobs(file: Option<seq<Announcement>>) returns (loaded: bool, ghost started: seq<Cron>)
      modifies this
      ensures loaded <==> old(announcements) != [] || file.Some?
      ensures !loaded ==> jobs == old(jobs) && announcements == old(announcements) && started == []
      ensures loaded ==> announcements == (if old(announcements) == [] then file.value else old(announcements))
      ensures |started| == |announcements| || !loaded
      ensures loaded ==> forall k :: 0 <= k < |announcements| ==>
        fresh(started[k]) && started[k].running && started[k].announcement == announcements[k]
      ensures loaded ==> AllDifferent(started)
      ensures loaded ==> jobs == AddedAll(old(jobs), started)
    {
      if announcements == [] {
        if file.None? {
          return false, [];
        }
        announcements := file.value;
      }
      started := StartJobs(announcements);
      loaded := true;
    }

    /**
     * The `reload` command issued in `guild`: the announcements are replaced
     * by the file's, and only that guild's jobs are restarted; the jobs of
     * every other guild keep running on the announcements they were started
     * with.
     */
    method Reload(file: Option<seq<Announcement>>, guild: GuildId) returns (loaded: bool, ghost started: seq<Cron>)
      modifies this, JobsOf(jobs, guild)
      ensures loaded <==> file.Some?
      ensures !loaded ==> jobs == old(jobs) && announcements == old(announcements) && started == []
      ensures loaded ==> announcements == file.value
      ensures loaded ==> forall job :: job in JobsOf(old(jobs), guild) ==> !job.running
      ensures loaded ==> var anns := ForGuild(file.value, guild);
        && |started| == |anns|
        && forall k :: 0 <= k < |anns| ==>
             fresh(started[k]) && started[k].running && started[k].announcement == anns[k]
      ensures loaded ==> AllDifferent(started)
      ensures loaded ==> jobs == AddedAll(old(jobs), started)
    {
      if file.None? {
        return false, [];
      }
      announcements := file.value;
      started := RestartJobs(guild);
      loaded := true;
    }

    /** Every job the registry holds, whatever its guild. */
    function AllJobs(): set<Cron>
      reads this
    {
      set g, job | g in jobs && job in jobs[g] :: job
    }

    /** `cog_unload`: every job of every guild in the registry is stopped. */
    method CogUnload()
      modifies AllJobs()
      ensures forall g, job :: g in jobs && job in jobs[g] ==> !job.running
    {
      var guilds := jobs.Keys;
      while guilds != {}
        invariant guilds <= jobs.Keys
        invariant forall g, job :: g in jobs && g !in guilds && job in jobs[g] ==> !job.running
        decreases guilds
      {
        var g := AnyGuild(guilds);
        assert JobsOf(jobs, g) <= AllJobs();
        StopJobs(g);
        guilds := guilds - {g};
      }
    }

    /** `get_guild_announcements`. */
    function GetGuildAnnouncements(guild: GuildId): (r: seq<Announcement>)
      reads this
      ensures forall a :: a in r ==> a in announcements && a.guildId == guild
      ensures forall a: Announcement :: a.guildId == guild ==> multiset(r)[a] == multiset(announcements)[a]
    {
      ForGuildSelects(announcements, guild);
      ForGuild(announcements, guild)
    }
  }

  /** No job is started twice: every `aiocron.Cron(...)` call makes a new object. */
  ghost predicate AllDifferent(started: seq<Cron>) {
    forall j, k :: 0 <= j < k < |started| ==> started[j] != started[k]
  }

  /** Some guild of a set that is not empty, in whatever order the set yields them. */
  method AnyGuild(guilds: set<GuildId>) returns (g: GuildId)
    requires guilds != {}
    ensures g in guilds
  {
    // Not a case of its own: this only hands the verifier a term for `h in
    // guilds`, which it needs to see that the `:|` below has a witness.
    if forall h :: h !in guilds {
      assert false;
    }
    g :| g in guilds;
  }

  /** Registering one more job after a run of them. */
  lemma {:induction false} AddedAllSnoc(jobs: Jobs, started: seq<Cron>, job: Cron)
    ensures AddedAll(jobs, started + [job]) == Added(AddedAll(jobs, started), job.announcement.guildId, job)
    decreases |started|
  {
    if started == [] {
      assert started + [job] == [job];
    } else {
      assert (started + [job])[1..] == started[1..] + [job];
      AddedAllSnoc(Added(jobs, started[0].announcement.guildId, started[0]), started[1..], job);
    }
  }
}
