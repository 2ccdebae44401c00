/**
 * The backend's configuration records, as decoded from data.json
 * (config/config.go). Loading and decoding the file is not modelled; these
 * are the values the handlers read.
 */
module GoConfig {

  /** A gift trigger or a coin range (JSON keys gift_name, gift_id, action_id, enabled, min_coin, max_coin). */
  datatype EventConfig = EventConfig(
    giftName: string,
    giftId: int,
    actionIds: seq<string>,
    enabled: bool,
    minCoin: int,
    maxCoin: int)

  /** The text-to-speech settings (JSON keys enabled, type, voice.type). */
  datatype TtsConfig = TtsConfig(enabled: bool, kind: string, voiceKind: string)

  /** What an action shows on its screen (JSON object play_media). Volumes are carried, never inspected. */
  datatype PlayMedia = PlayMedia(kind: string, mediaPath: string, maxDuration: string, volume: real)

  /** One configured action (an entry of the JSON object actions). */
  datatype ActionConfig = ActionConfig(
    screen: string,
    commands: seq<string>,
    playMedia: PlayMedia,
    skipOnNextAction: bool,
    showUserInfo: bool,
    displayText: string)

  datatype EventsConfig = EventsConfig(
    specifiedGift: seq<EventConfig>,
    coinCount: seq<EventConfig>,
    textToSpeech: TtsConfig,
    follow: EventConfig)

  /** The whole configuration (Go's DataConfig). */
  datatype DataConfig = DataConfig(
    key: string,
    serverUrl: string,
    port: int,
    tiktokUsername: string,
    volume: real,
    maxCharsTts: int,
    maxCommentQueLength: int,
    maxMediaQueLength: int,
    events: EventsConfig,
    actions: map<string, ActionConfig>)

  /** The value Go yields for an absent key of Actions: every field at its zero value. */
  const ZeroAction := ActionConfig("", [], PlayMedia("", "", "", 0.0), false, false, "")

  /** Go's `Data.Actions[id]`: the configured action, or the zero action when `id` is not a key. */
  function ActionOf(cfg: DataConfig, id: string): (a: ActionConfig)
    ensures id in cfg.actions ==> a == cfg.actions[id]
    ensures id !in cfg.actions ==> a.screen == "" && a.commands == [] && a.playMedia.mediaPath == ""
  {
    if id in cfg.actions then cfg.actions[id] else ZeroAction
  }
}
