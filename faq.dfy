/**
 * bot/faq/cog.py: the FAQ command. It posts one message per help-centre
 * category in the invoking channel and remembers, per channel, the ids of the
 * messages it posted, so that the next run can delete them first.
 */
module FaqCog {
  import opened Wrappers
  import opened OrderedDict
  import opened Discord

  /** `config_settings['faq_messages']`: channel id to the ids posted there, in posting order. */
  type FaqMessages = Dict<ChannelId, seq<MessageId>>

  /** What the cog does on the platform, in order. */
  datatype Event =
    | DeleteTried(channel: ChannelId, message: MessageId, result: ApiResult)
    | Posted(channel: ChannelId, message: MessageId)
    | PostFailed(channel: ChannelId, error: ApiError)
    | Saved(snapshot: Option<FaqMessages>)

  /** `d.items()`: the entries in insertion order. */
  function Items(d: FaqMessages): (entries: seq<(ChannelId, seq<MessageId>)>)
    requires forall k :: 0 <= k < |d.keys| ==> d.keys[k] in d.values
    ensures |entries| == |d.keys|
    ensures forall k :: 0 <= k < |entries| ==> entries[k] == (d.keys[k], d.values[d.keys[k]])
  {
    seq(|d.keys|, k requires 0 <= k < |d.keys| => (d.keys[k], d.values[d.keys[k]]))
  }

  /** The deletes tried for the ids of one channel the bot can see, in order. */
  function DeletesIn(channel: ChannelId, ids: seq<MessageId>, delete: (ChannelId, MessageId) -> ApiResult): (es: seq<Event>)
    ensures |es| == |ids|
  {
    if ids == [] then []
    else
      var last := ids[|ids| - 1];
      DeletesIn(channel, ids[..|ids| - 1], delete) + [DeleteTried(channel, last, delete(channel, last))]
  }

  /** The deletes `_delete_old_messages` tries for `entries`: none at all in a channel the bot cannot find. */
  function Deletes(cache: Cache, entries: seq<(ChannelId, seq<MessageId>)>, delete: (ChannelId, MessageId) -> ApiResult): seq<Event>
  {
    if entries == [] then []
    else
      var (channel, ids) := entries[|entries| - 1];
      Deletes(cache, entries[..|entries| - 1], delete)
        + (if KnownChannel(cache, channel) then DeletesIn(channel, ids, delete) else [])
  }

  /** One more entry adds the deletes of its channel, if the bot can find it. */
  lemma DeletesSnoc(cache: Cache, entries: seq<(ChannelId, seq<MessageId>)>, i: nat, delete: (ChannelId, MessageId) -> ApiResult)
    requires i < |entries|
    ensures Deletes(cache, entries[..i + 1], delete)
      == Deletes(cache, entries[..i], delete)
      + (if KnownChannel(cache, entries[i].0) then DeletesIn(entries[i].0, entries[i].1, delete) else [])
  {
    assert entries[..i + 1][..i] == entries[..i];
  }

  /** The delete of `m` is tried in `channel` exactly when `m` is one of its ids. */
  lemma {:induction false} DeletesInMeaning(channel: ChannelId, ids: seq<MessageId>, delete: (ChannelId, MessageId) -> ApiResult, e: Event)
    ensures e in DeletesIn(channel, ids, delete) <==>
      e.DeleteTried? && e.channel == channel && e.message in ids && e.result == delete(channel, e.message)
  {
    if ids != [] {
      DeletesInMeaning(channel, ids[..|ids| - 1], delete, e);
      assert ids == ids[..|ids| - 1] + [ids[|ids| - 1]];
    }
  }

  /**
   * Which deletes are tried: one for each id stored under a channel the bot
   * can find, and only those; messages of a channel it cannot find are not
   * deleted.
   */
  lemma {:induction false} DeletesMeaning(cache: Cache, entries: seq<(ChannelId, seq<MessageId>)>, delete: (ChannelId, MessageId) -> ApiResult, e: Event)
    ensures e in Deletes(cache, entries, delete) <==>
      && e.DeleteTried? && KnownChannel(cache, e.channel) && e.result == delete(e.channel, e.message)
      && exists k :: 0 <= k < |entries| && entries[k].0 == e.channel && e.message in entries[k].1
  {
    if entries != [] {
      var n := |entries| - 1;
      var (channel, ids) := entries[n];
      DeletesMeaning(cache, entries[..n], delete, e);
      DeletesInMeaning(channel, ids, delete, e);
      if e in Deletes(cache, entries, delete) && e !in Deletes(cache, entries[..n], delete) {
        assert entries[n].0 == e.channel && e.message in entries[n].1;
      }
      if e.DeleteTried? && exists k :: 0 <= k < |entries| && entries[k].0 == e.channel && e.message in entries[k].1 {
        var k :| 0 <= k < |entries| && entries[k].0 == e.channel && e.message in entries[k].1;
        if k < n {
          assert entries[..n][k] == entries[k];
        }
      }
    }
  }

  /** The stored ids with `message` appended under `channel`. */
  function Appended(stored: Option<FaqMessages>, channel: ChannelId, message: MessageId): (r: FaqMessages)
    ensures var d := if stored.Some? then stored.value else Empty();
      && r.values.Keys == d.values.Keys + {channel}
      && r.values[channel] == (if channel in d.values then d.values[channel] else []) + [message]
      && (forall c :: c in d.values && c != channel ==> r.values[c] == d.values[c])
      && r.keys == if channel in d.values then d.keys else d.keys + [channel]
  {
    var d := if stored.Some? then stored.value else Empty();
    var ids := if channel in d.values then d.values[channel] else [];
    Put(d, channel, ids + [message])
  }

  /** Posting `ids` in `channel`, in order. */
  function Posts(channel: ChannelId, ids: seq<MessageId>): (es: seq<Event>)
    ensures |es| == |ids|
    ensures forall k :: 0 <= k < |ids| ==> es[k] == Posted(channel, ids[k])
  {
    seq(|ids|, k requires 0 <= k < |ids| => Posted(channel, ids[k]))
  }

  class Cog {
    /** None while `config_settings` has no `faq_messages` key. */
    var faqMessages: Option<FaqMessages>
    ghost var trace: seq<Event>

    ghost predicate Valid()
      reads this
    {
      faqMessages.Some? ==> OrderedDict.Valid(faqMessages.value)
    }

    /**
     * The cog as constructed: `ConfigMixin` loads the settings file, which
     * holds the `faq_messages` of an earlier run if one was saved (None: no
     * such key).
     */
    constructor(loaded: Option<FaqMessages>)
      requires loaded.Some? ==> OrderedDict.Valid(loaded.value)
      ensures Valid() && faqMessages == loaded && trace == []
    {
      faqMessages := loaded;
      trace := [];
    }

    /**
     * `_save_message`: the registry and the channel's list are created on
     * demand, and the id goes at the end of the channel's list; every other
     * channel keeps its list, and a new channel goes last in the order.
     */
    method SaveMessage(channel: ChannelId, message: MessageId)
      requires Valid()
      modifies this
      ensures Valid() && trace == old(trace)
      ensures faqMessages == Some(Appended(old(faqMessages), channel, message))
    {
      if faqMessages.None? {
        faqMessages := Some(Empty());
      }
      var d := faqMessages.value;
      ghost var base := d;
      if channel !in d.values {
        d := Put(d, channel, []);
      }
      d := Put(d, channel, d.values[channel] + [message]);
      assert d == Appended(old(faqMessages), channel, message) by {
        if channel !in base.values {
          assert d.keys == base.keys + [channel];
          assert d.values == base.values[channel := [] + [message]];
        }
      }
      faqMessages := Some(d);
      PutKeepsValid(base, channel, (if channel in base.values then base.values[channel] else []) + [message]);
    }

    /**
     * `_delete_old_messages`: for each stored channel the bot can find, a
     * delete is tried for each of its ids in order, whatever earlier deletes
     * answered; then the registry is emptied and saved, so messages whose
     * delete failed, and those of channels the bot could not find, are
     * forgotten all the same.
     */
    method DeleteOldMessages(cache: Cache, delete: (ChannelId, MessageId) -> ApiResult)
      requires Valid()
      modifies this
      ensures Valid() && faqMessages == Some(Empty())
      ensures trace == old(trace)
        + (if old(faqMessages).Some? then Deletes(cache, Items(old(faqMessages).value), delete) else [])
        + [Saved(Some(Empty()))]
    {
      var entries := if faqMessages.Some? then Items(faqMessages.value) else [];
      ghost var start := trace;
      var i := 0;
      while i < |entries|
        invariant 0 <= i <= |entries|
        invariant trace == start + Deletes(cache, entries[..i], delete)
      {
        var (channel, ids) := entries[i];
        DeletesSnoc(cache, entries, i, delete);
        if KnownChannel(cache, channel) {
          DeleteChannelMessages(channel, ids, delete);
        }
        i := i + 1;
      }
      assert entries[..i] == entries;
      faqMessages := Some(Empty());
      trace := trace + [Saved(faqMessages)];
    }

    /** The inner loop of `_delete_old_messages`: a delete for each id in turn, every error swallowed. */
    method DeleteChannelMessages(channel: ChannelId, ids: seq<MessageId>, delete: (ChannelId, MessageId) -> ApiResult)
      modifies this
      ensures faqMessages == old(faqMessages) && trace == old(trace) + DeletesIn(channel, ids, delete)
    {
      var j := 0;
      while j < |ids|
        invariant 0 <= j <= |ids| && faqMessages == old(faqMessages)
        invariant trace == old(trace) + DeletesIn(channel, ids[..j], delete)
      {
        assert ids[..j + 1][..j] == ids[..j];
        trace := trace + [DeleteTried(channel, ids[j], delete(channel, ids[j]))];
        j := j + 1;
      }
      assert ids[..j] == ids;
    }

    /**
     * The bookkeeping of the `faq` command run in `channel`: the old messages
     * are deleted and forgotten, then one message is posted per category and
     * recorded, and the registry is saved. The posts that went through got
     * the ids `sent`; `failure` is the error of a further post that raised,
     * if one did. Such an error escapes at once: the ids already recorded
     * stay in memory, but the closing save never happens.
     */
    method FaqCmd(cache: Cache, delete: (ChannelId, MessageId) -> ApiResult, channel: ChannelId,
                  sent: seq<MessageId>, failure: Option<ApiError>)
      returns (raised: Option<ApiError>)
      requires Valid()
      modifies this
      ensures Valid() && raised == failure
      ensures faqMessages == Some(if sent == [] then Empty() else Dict([channel], map[channel := sent]))
      ensures trace == old(trace)
        + (if old(faqMessages).Some? then Deletes(cache, Items(old(faqMessages).value), delete) else [])
        + [Saved(Some(Empty()))] + Posts(channel, sent)
        + (if failure.Some? then [PostFailed(channel, failure.value)] else [Saved(faqMessages)])
    {
      DeleteOldMessages(cache, delete);
      ghost var start := trace;
      var k := 0;
      while k < |sent|
        invariant 0 <= k <= |sent| && Valid()
        invariant faqMessages == Some(if k == 0 then Empty() else Dict([channel], map[channel := sent[..k]]))
        invariant trace == start + Posts(channel, sent[..k])
      {
        trace := trace + [Posted(channel, sent[k])];
        SaveMessage(channel, sent[k]);
        assert sent[..k + 1] == sent[..k] + [sent[k]];
        if k == 0 {
          assert faqMessages.value.keys == [channel];
          assert faqMessages.value.values == map[channel := sent[..1]];
        } else {
          assert faqMessages.value.values == map[channel := sent[..k + 1]];
        }
        k := k + 1;
      }
      assert sent[..k] == sent;
      if failure.Some? {
        trace := trace + [PostFailed(channel, failure.value)];
        return failure;
      }
      trace := trace + [Saved(faqMessages)];
      raised := None;
    }
  }
}
