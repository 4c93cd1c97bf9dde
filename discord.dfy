/**
 * The part of the chat platform the cogs observe: the bot's session cache of
 * guilds and their channels, and the results the platform's HTTP API reports
 * for delete and edit requests.
 */
module Discord {

  type GuildId = int
  type ChannelId = int
  type MessageId = int

  /** The session cache: every guild the bot is in, with the channels of that guild. */
  type Cache = map<GuildId, set<ChannelId>>

  /** `bot.get_guild(guild)` is not None and `guild.get_channel(channel)` is not None. */
  predicate ChannelInGuild(cache: Cache, guild: GuildId, channel: ChannelId) {
    guild in cache && channel in cache[guild]
  }

  /** `bot.get_channel(channel)` is not None: some cached guild has that channel. */
  predicate KnownChannel(cache: Cache, channel: ChannelId) {
    exists guild :: guild in cache && channel in cache[guild]
  }

  /**
   * The exceptions an HTTP request can raise: `discord.Forbidden`,
   * `discord.NotFound` and any other `discord.HTTPException` (all three are
   * subclasses of `HTTPException`).
   */
  datatype ApiError = Forbidden | NotFound | OtherHttp

  datatype ApiResult = Done | Failed(error: ApiError)

  /** What `channel.send` answers: the posted message's id, or the HTTP error it raised. */
  datatype SendResult = Sent(id: MessageId) | SendFailed(error: ApiError)

  /** A rendered embed; the cogs never look inside one, they only attach it to messages. */
  datatype Embed = Embed(token: nat)
}
