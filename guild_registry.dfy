/**
 * The per-guild registry of the one live message (`config_settings` in
 * bot/competition.py and bot/leaderboard.py): guild id -> where the message
 * was posted. A value is the typed `MessageInfo` written during this session,
 * or the plain list that JSON gives back after a reload.
 */
module GuildRegistry {
  import opened Wrappers
  import opened OrderedDict
  import opened Discord

  datatype MessageInfo = MessageInfo(channelId: ChannelId, messageId: MessageId)

  datatype Stored = Typed(info: MessageInfo) | Legacy(items: seq<int>)

  type Settings = Dict<GuildId, Stored>

  /** The exceptions that can leave the registry operations. */
  datatype Exception = Api(error: ApiError) | IndexError | KeyError | AttributeError | RenderError

  datatype Outcome = Ok | Raised(exception: Exception)

  /**
   * `get_saved_message_info`: a typed value comes back as it is, a list
   * `[c, m, ...]` is coerced to `MessageInfo(c, m)`, a list too short to
   * index raises IndexError, a missing guild gives None.
   */
  function GetSavedMessageInfo(settings: Settings, guild: GuildId): (r: Result<Option<MessageInfo>, Exception>)
    ensures r == Success(None) <==> guild !in settings.values
    ensures r.Failure? <==>
      guild in settings.values && settings.values[guild].Legacy? && |settings.values[guild].items| < 2
    ensures r.Failure? ==> r.error == IndexError
    ensures guild in settings.values && settings.values[guild].Typed? ==>
      r == Success(Some(settings.values[guild].info))
    ensures guild in settings.values && settings.values[guild].Legacy? && |settings.values[guild].items| >= 2 ==>
      r == Success(Some(MessageInfo(settings.values[guild].items[0], settings.values[guild].items[1])))
  {
    if guild !in settings.values then Success(None)
    else match settings.values[guild]
      case Typed(info) => Success(Some(info))
      case Legacy(items) =>
        if |items| < 2 then Failure(IndexError) else Success(Some(MessageInfo(items[0], items[1])))
  }

  /** How JSON writes a registry value: a `MessageInfo` (a NamedTuple) becomes the list `[channel, message]`. */
  function ToJson(v: Stored): (r: Stored)
    ensures r.Legacy?
  {
    match v
    case Typed(info) => Legacy([info.channelId, info.messageId])
    case Legacy(_) => v
  }

  /** The registry as it reads back after a save and a reload: same keys, every value in list form. */
  function Reloaded(settings: Settings): (r: Settings)
    ensures r.keys == settings.keys && r.values.Keys == settings.values.Keys
    ensures forall g :: g in r.values ==> r.values[g].Legacy?
  {
    Dict(settings.keys, map g | g in settings.values :: ToJson(settings.values[g]))
  }

  /** Writing the registry to JSON and reading it back does not change what any guild's lookup returns. */
  lemma ReloadKeepsLookups(settings: Settings, guild: GuildId)
    ensures GetSavedMessageInfo(Reloaded(settings), guild) == GetSavedMessageInfo(settings, guild)
  {
  }

  /**
   * `_fetch_saved_message`: a lazy reference to the saved location when the
   * guild and the channel inside it are in the cache. Whether the message
   * still exists is not checked here.
   */
  function FetchSavedMessage(cache: Cache, guild: GuildId, info: MessageInfo): (r: Option<MessageInfo>)
    ensures r.Some? <==> ChannelInGuild(cache, guild, info.channelId)
    ensures r.Some? ==> r.value == info
  {
    if guild in cache && info.channelId in cache[guild] then Some(info) else None
  }
}
