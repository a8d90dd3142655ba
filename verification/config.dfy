/**
 * The configuration record the watchdog reads from its YAML file. Loading
 * and parsing the file are not part of this model; a `Config` is the value
 * that parsing produced (absent keys are Go's zero values: "" and 0).
 */
module Config {

  /** The `target` section: a server domain, or a full streaming URL. */
  datatype TargetSettings = TargetSettings(domain: string, url: string)

  datatype Config = Config(
    target: TargetSettings,
    timeout: int,     // seconds
    cooldown: int,    // seconds
    command: string,
    sentryDsn: string)
}
