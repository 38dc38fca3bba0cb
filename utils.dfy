/**
 * Process-wide defaults, the per-guild configuration resolver, the command
 * prefix lookup and the guard in front of a remote-console (RCON) call
 * (utils.py).
 *
 * The in-memory configuration document maps a guild id (as text) to that
 * guild's stored record; each of the record's four keys may be absent.
 */
module Utils {
  import opened Text

  /** A guild's stored record: `ip`, `port`, `password` and `prefix`, each
      present or absent. */
  datatype GuildRecord = GuildRecord(
    ip: Option<string>,
    port: Option<int>,
    password: Option<string>,
    prefix: Option<string>)

  const EmptyRecord := GuildRecord(None, None, None, None)

  /** The whole configuration document, keyed by guild id. */
  type GuildConfigs = map<string, GuildRecord>

  /** The record `configs.get(guild, {})` yields: the stored one, or an empty
      record when the guild has none. */
  function RecordOf(configs: GuildConfigs, guild: string): GuildRecord {
    if guild in configs then configs[guild] else EmptyRecord
  }

  // ---------------------------------------------------------------------
  // Defaults, read from the environment at start-up
  // ---------------------------------------------------------------------

  const FallbackIp := "mc.hypixel.net"
  const FallbackPort := "25565"
  const FallbackPassword := ""
  const DefaultPrefix := "!"

  datatype Defaults = Defaults(ip: string, port: int, password: string)

  /** `os.getenv(name, fallback)` */
  function Getenv(env: map<string, string>, name: string, fallback: string): string {
    if name in env then env[name] else fallback
  }

  /** The module-level constants `DEFAULT_IP`, `DEFAULT_PORT` and
      `DEFAULT_RCON_PASSWORD`. `None` stands for the ValueError that
      `int(...)` raises on a malformed `MC_PORT`, which stops the process
      before any command is served. */
  function LoadDefaults(env: map<string, string>): (r: Option<Defaults>) {
    match ParseInt(Getenv(env, "MC_PORT", FallbackPort))
    case None => None
    case Some(port) =>
      Some(Defaults(Getenv(env, "MC_IP", FallbackIp), port, Getenv(env, "MC_RCON_PASSWORD", FallbackPassword)))
  }

  /** With no variable set, the defaults are the public reference server on
      port 25565 with no RCON password. */
  lemma LoadDefaultsOfEmptyEnvironment()
    ensures LoadDefaults(map[]) == Some(Defaults("mc.hypixel.net", 25565, ""))
  {
    assert FallbackPort == IntToString(25565) by {
      assert NatToString(2) == "2";
      assert NatToString(25) == "25";
      assert NatToString(255) == "255";
      assert NatToString(2556) == "2556";
    }
    ParseIntOfIntToString(25565);
  }

  /** A malformed `MC_PORT` stops start-up; a well-formed one is used. */
  lemma LoadDefaultsPort(env: map<string, string>)
    requires "MC_PORT" in env
    ensures LoadDefaults(env).None? <==> ParseInt(env["MC_PORT"]).None?
    ensures LoadDefaults(env).Some? ==> Some(LoadDefaults(env).value.port) == ParseInt(env["MC_PORT"])
  {
  }

  // ---------------------------------------------------------------------
  // get_guild_config
  // ---------------------------------------------------------------------

  /** The effective connection profile: exactly the keys `ip`, `port` and
      `password`. */
  datatype Profile = Profile(ip: string, port: int, password: string)

  /** `get_guild_config`: each key is the stored value when the guild's
      record has it, else the process-wide default. Reading the document with
      `.get` never adds a record to it. */
  function GuildConfig(configs: GuildConfigs, guild: string, d: Defaults): (p: Profile) {
    var raw := RecordOf(configs, guild);
    Profile(
      match raw.ip case Some(v) => v case None => d.ip,
      match raw.port case Some(v) => v case None => d.port,
      match raw.password case Some(v) => v case None => d.password)
  }

  /** A guild with no stored record gets exactly the defaults. */
  lemma GuildConfigOfUnknownGuild(configs: GuildConfigs, guild: string, d: Defaults)
    requires guild !in configs
    ensures GuildConfig(configs, guild, d) == Profile(d.ip, d.port, d.password)
  {
  }

  /** Each key is resolved on its own: stored value if present, default
      otherwise, whatever the other keys hold. */
  lemma GuildConfigFieldwise(configs: GuildConfigs, guild: string, d: Defaults)
    ensures var p := GuildConfig(configs, guild, d);
      && (guild in configs && configs[guild].ip.Some? ==> p.ip == configs[guild].ip.value)
      && (guild !in configs || configs[guild].ip.None? ==> p.ip == d.ip)
      && (guild in configs && configs[guild].port.Some? ==> p.port == configs[guild].port.value)
      && (guild !in configs || configs[guild].port.None? ==> p.port == d.port)
      && (guild in configs && configs[guild].password.Some? ==> p.password == configs[guild].password.value)
      && (guild !in configs || configs[guild].password.None? ==> p.password == d.password)
  {
  }

  /** Only `ip` stored: the stored ip with the default port and password. */
  lemma GuildConfigOnlyIp(configs: GuildConfigs, guild: string, d: Defaults, ip: string)
    requires guild in configs && configs[guild] == GuildRecord(Some(ip), None, None, None)
    ensures GuildConfig(configs, guild, d) == Profile(ip, d.port, d.password)
  {
  }

  /** The stored prefix never reaches the profile, and other guilds' records
      do not matter. */
  lemma GuildConfigIgnoresPrefixAndOtherGuilds(configs: GuildConfigs, guild: string, d: Defaults,
                                               other: GuildConfigs, prefix: Option<string>)
    requires guild in configs <==> guild in other
    requires guild in configs ==> other[guild] == configs[guild].(prefix := prefix)
    ensures GuildConfig(other, guild, d) == GuildConfig(configs, guild, d)
  {
  }

  // ---------------------------------------------------------------------
  // get_prefix
  // ---------------------------------------------------------------------

  /** `get_prefix`: `"!"` for a message outside any guild, the guild's stored
      prefix when it has one, `"!"` otherwise. */
  function Prefix(configs: GuildConfigs, guild: Option<string>): (r: string) {
    match guild
    case None => DefaultPrefix
    case Some(g) => match RecordOf(configs, g).prefix case Some(p) => p case None => DefaultPrefix
  }

  lemma PrefixCases(configs: GuildConfigs, guild: Option<string>)
    ensures guild.None? ==> Prefix(configs, guild) == "!"
    ensures guild.Some? && guild.value in configs && configs[guild.value].prefix.Some? ==>
              Prefix(configs, guild) == configs[guild.value].prefix.value
    ensures guild.Some? && (guild.value !in configs || configs[guild.value].prefix.None?) ==>
              Prefix(configs, guild) == "!"
  {
  }

  // ---------------------------------------------------------------------
  // run_rcon_command
  // ---------------------------------------------------------------------

  /** One request handed to a remote-console session: where to connect,
      the password to log in with, and the command text. */
  datatype RconRequest = RconRequest(ip: string, port: int, password: string, command: string)

  /** The session opened by the RCON library: it connects, logs in, sends one
      command and gives back the reply, or the text of the exception it
      raised. Nothing about it is modelled beyond that. */
  type Session = RconRequest -> Result<string, string>

  /** What one call of `run_rcon_command` did: the requests it handed to a
      session (none or one) and its outcome (reply text or error text). */
  datatype RconRun = RconRun(sent: seq<RconRequest>, outcome: Result<string, string>)

  const PasswordNotSet := "RCON password not set for this server."

  /** `run_rcon_command`: refuses before opening any session when the
      profile's password is empty; otherwise hands the command, unchanged, to
      one session and returns what it returns. */
  function RunRconCommand(cmd: string, cfg: Profile, session: Session): (r: RconRun) {
    if cfg.password == "" then RconRun([], Err(PasswordNotSet))
    else
      var req := RconRequest(cfg.ip, cfg.port, cfg.password, cmd);
      RconRun([req], session(req))
  }

  /** With an empty password nothing is sent, whatever the session would have
      done, and the error says the password is not set. */
  lemma RconGuard(cmd: string, cfg: Profile, s1: Session, s2: Session)
    requires cfg.password == ""
    ensures RunRconCommand(cmd, cfg, s1) == RunRconCommand(cmd, cfg, s2)
    ensures RunRconCommand(cmd, cfg, s1).sent == []
    ensures RunRconCommand(cmd, cfg, s1).outcome == Err("RCON password not set for this server.")
  {
  }

  /** With a password, exactly one request carries the command text
      unchanged, and the session's answer is the result. */
  lemma RconForwards(cmd: string, cfg: Profile, session: Session)
    requires cfg.password != ""
    ensures var r := RunRconCommand(cmd, cfg, session);
      && |r.sent| == 1
      && r.sent[0] == RconRequest(cfg.ip, cfg.port, cfg.password, cmd)
      && r.outcome == session(r.sent[0])
  {
  }
}
