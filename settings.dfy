/** The stored preferences record and the fixed constants the other modules use. */
module Settings {

  const MIN_DELAY_SECONDS: int := 0
  const MAX_DELAY_SECONDS: int := 30

  datatype PauseSettings = PauseSettings(
    enabled: bool,
    delaySeconds: int,
    smartPause: bool,
    keywords: seq<string>)

  const DEFAULT_DELAY_SECONDS: int := 5
  const DEFAULT_KEYWORDS: seq<string> := ["urgent", "asap", "confidential", "private"]
  const DEFAULT_SETTINGS: PauseSettings := PauseSettings(true, DEFAULT_DELAY_SECONDS, true, DEFAULT_KEYWORDS)
}
