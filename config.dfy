/**
 * The administrator commands that write a guild's server configuration
 * (config.py): `!config` / `!setserverinfo` with their argument parser,
 * `/config` / `/setserverinfo`, and `!prefix` / `/prefix`.
 */
module Config {
  import opened Text
  import opened Utils

  /** The replies `!config` refuses with. */
  datatype ConfigError =
    | PortNotNumber             // "`port` must be a number."
    | UnknownParameter(key: string)  // "Unknown parameter `<key>`."
    | TooManyArguments          // "Too many arguments."
    | MissingIp                 // "You must specify at least an IP."

  /** What a successful `!config` writes: `ip` always, `port` and
      `password` only when supplied. */
  datatype ConfigUpdate = ConfigUpdate(ip: string, port: Option<int>, password: Option<string>)

  // ---------------------------------------------------------------------
  // One argument
  // ---------------------------------------------------------------------

  /** What one argument of `!config` stands for. An argument with an `=` is
      a keyword: split at the first `=`, the key compared lower-cased. */
  datatype Arg =
    | IpArg(ip: string)
    | PortArg(port: int)
    | BadPortArg
    | PasswordArg(password: string)
    | UnknownArg(key: string)
    | PositionalArg(text: string)

  /** The keys `!config` accepts, after lower-casing. */
  predicate IsIpKey(key: string) { key == "ip" || key == "host" }
  predicate IsPortKey(key: string) { key == "port" }
  predicate IsPasswordKey(key: string) { key == "pw" || key == "password" || key == "rcon" }

  function Classify(a: string): Arg {
    if '=' in a then
      var k := BeforeFirst(a, '=');
      var v := AfterFirst(a, '=');
      var key := Lower(k);
      if IsIpKey(key) then IpArg(v)
      else if IsPortKey(key) then
        match ParseInt(v) case Some(n) => PortArg(n) case None => BadPortArg
      else if IsPasswordKey(key) then PasswordArg(v)
      else UnknownArg(k)
    else PositionalArg(a)
  }

  /** `key=value` is split at its FIRST `=`: the value keeps any later `=`,
      and the key is matched without regard to ASCII case. */
  lemma ClassifyKeyword(k: string, v: string)
    requires '=' !in k
    ensures var c := Classify(k + "=" + v);
      && (Lower(k) in {"ip", "host"} ==> c == IpArg(v))
      && (Lower(k) == "port" ==> c == (if ParseInt(v).Some? then PortArg(ParseInt(v).value) else BadPortArg))
      && (Lower(k) in {"pw", "password", "rcon"} ==> c == PasswordArg(v))
      && (Lower(k) !in {"ip", "host", "port", "pw", "password", "rcon"} ==> c == UnknownArg(k))
  {
    var a := k + "=" + v;
    assert a[|k|] == '=';
    assert a[..|k|] == k;
    var i := IndexOf(a, '=');
    assert i == |k|;
    assert BeforeFirst(a, '=') == k;
    assert AfterFirst(a, '=') == v;
  }

  /** An argument without `=` is positional, kept as it is. */
  lemma ClassifyPositional(a: string)
    requires '=' !in a
    ensures Classify(a) == PositionalArg(a)
  {
  }

  /** Every argument, classified. */
  function ClassifyAll(args: seq<string>): (cs: seq<Arg>)
    ensures |cs| == |args|
  {
    if args == [] then [] else [Classify(args[0])] + ClassifyAll(args[1..])
  }

  lemma {:induction false} ClassifyAllAt(args: seq<string>, i: nat)
    requires i < |args|
    ensures ClassifyAll(args)[i] == Classify(args[i])
  {
    if i > 0 {
      ClassifyAllAt(args[1..], i - 1);
    }
  }

  // ---------------------------------------------------------------------
  // The scan over the arguments and the positional fallback
  // ---------------------------------------------------------------------

  /** The scan's variables: `ip`, `port`, `pw` (None until a keyword sets
      them) and the positional arguments seen so far. */
  datatype Scan = Scan(ip: Option<string>, port: Option<int>, pw: Option<string>, pos: seq<string>)

  const EmptyScan := Scan(None, None, None, [])

  function ScanArg(st: Scan, c: Arg): Result<Scan, ConfigError> {
    match c
    case IpArg(v) => Ok(st.(ip := Some(v)))
    case PortArg(n) => Ok(st.(port := Some(n)))
    case BadPortArg => Err(PortNotNumber)
    case PasswordArg(v) => Ok(st.(pw := Some(v)))
    case UnknownArg(k) => Err(UnknownParameter(k))
    case PositionalArg(t) => Ok(st.(pos := st.pos + [t]))
  }

  /** The `for a in args` loop, from state `st`: it stops at the first
      argument that fails. */
  function ScanFrom(st: Scan, cs: seq<Arg>): Result<Scan, ConfigError>
    decreases |cs|
  {
    if cs == [] then Ok(st)
    else
      match ScanArg(st, cs[0])
      case Err(e) => Err(e)
      case Ok(next) => ScanFrom(next, cs[1..])
  }

  /** The positional fallback: the 1st positional fills `ip`, the 2nd
      `port`, the 3rd `pw`, each only when no keyword set it; more than three
      positionals is an error, checked after the port. Then the ip must be
      non-empty. */
  function Finish(st: Scan): Result<ConfigUpdate, ConfigError> {
    var ip := if st.pos != [] && st.ip.None? then Some(st.pos[0]) else st.ip;
    if |st.pos| > 1 && st.port.None? && ParseInt(st.pos[1]).None? then Err(PortNotNumber)
    else
      var port := if |st.pos| > 1 && st.port.None? then ParseInt(st.pos[1]) else st.port;
      var pw := if |st.pos| > 2 && st.pw.None? then Some(st.pos[2]) else st.pw;
      if |st.pos| > 3 then Err(TooManyArguments)
      else if ip.None? || ip.value == "" then Err(MissingIp)
      else Ok(ConfigUpdate(ip.value, port, pw))
  }

  /** What `!config <args>` decides, before it writes anything. */
  function ParseConfig(args: seq<string>): Result<ConfigUpdate, ConfigError> {
    match ScanFrom(EmptyScan, ClassifyAll(args))
    case Err(e) => Err(e)
    case Ok(st) => Finish(st)
  }

  /** One turn of the scan over `cs[i..]`. */
  lemma ScanFromAt(st: Scan, cs: seq<Arg>, i: nat)
    requires i < |cs|
    ensures ScanFrom(st, cs[i..]) ==
      match ScanArg(st, cs[i]) case Err(e) => Err(e) case Ok(next) => ScanFrom(next, cs[i + 1..])
  {
    assert cs[i..][0] == cs[i] && cs[i..][1..] == cs[i + 1..];
  }

  /** The `for a in args` loop of `ConfigCog.config`: the keyword
      arguments set their variable, the others are collected in order, and
      the first malformed port or unknown key stops the scan. */
  method ScanArguments(args: seq<string>) returns (r: Result<Scan, ConfigError>)
    ensures r == ScanFrom(EmptyScan, ClassifyAll(args))
  {
    ghost var cs := ClassifyAll(args);
    var ip: Option<string> := None;
    var port: Option<int> := None;
    var pw: Option<string> := None;
    var pos: seq<string> := [];
    var i := 0;
    while i < |args|
      invariant 0 <= i <= |args|
      invariant ScanFrom(Scan(ip, port, pw, pos), cs[i..]) == ScanFrom(EmptyScan, cs)
    {
      var a := args[i];
      ScanFromAt(Scan(ip, port, pw, pos), cs, i);
      ClassifyAllAt(args, i);
      if '=' in a {
        var k, v := BeforeFirst(a, '='), AfterFirst(a, '=');
        var key := Lower(k);
        if IsIpKey(key) {
          assert cs[i] == IpArg(v);
          ip := Some(v);
        } else if IsPortKey(key) {
          var n := ParseInt(v);
          if n.None? {
            assert cs[i] == BadPortArg;
            return Err(PortNotNumber);
          }
          assert cs[i] == PortArg(n.value);
          port := n;
        } else if IsPasswordKey(key) {
          assert cs[i] == PasswordArg(v);
          pw := Some(v);
        } else {
          assert cs[i] == UnknownArg(k);
          return Err(UnknownParameter(k));
        }
      } else {
        assert cs[i] == PositionalArg(a);
        pos := pos + [a];
      }
      i := i + 1;
    }
    assert cs[i..] == [];
    r := Ok(Scan(ip, port, pw, pos));
  }

  /** The positional fallback and the ip check that follow the loop. */
  method FinishArguments(st: Scan) returns (r: Result<ConfigUpdate, ConfigError>)
    ensures r == Finish(st)
  {
    var ip, port, pw, pos := st.ip, st.port, st.pw, st.pos;
    if |pos| > 0 {
      if ip.None? {
        ip := Some(pos[0]);
      }
      if |pos| > 1 && port.None? {
        var n := ParseInt(pos[1]);
        if n.None? {
          return Err(PortNotNumber);
        }
        port := n;
      }
      if |pos| > 2 && pw.None? {
        pw := Some(pos[2]);
      }
      if |pos| > 3 {
        return Err(TooManyArguments);
      }
    }
    if ip.None? || ip.value == "" {
      return Err(MissingIp);
    }
    r := Ok(ConfigUpdate(ip.value, port, pw));
  }

  /** The argument handling of `ConfigCog.config`: the scan, then the
      fallback. */
  method ParseConfigArgs(args: seq<string>) returns (r: Result<ConfigUpdate, ConfigError>)
    ensures r == ParseConfig(args)
  {
    var scanned := ScanArguments(args);
    match scanned
    case Err(e) => r := Err(e);
    case Ok(st) => r := FinishArguments(st);
  }

  // ---------------------------------------------------------------------
  // A declarative reading of the parser
  // ---------------------------------------------------------------------

  /** The error of the first argument that is refused while scanning. */
  function FirstBad(cs: seq<Arg>): Option<ConfigError> {
    if cs == [] then None
    else
      match cs[0]
      case BadPortArg => Some(PortNotNumber)
      case UnknownArg(k) => Some(UnknownParameter(k))
      case _ => FirstBad(cs[1..])
  }

  /** The value of the LAST `ip=`/`host=` keyword, if any. */
  function LastIp(cs: seq<Arg>): Option<string> {
    if cs == [] then None
    else
      var later := LastIp(cs[1..]);
      if later.Some? then later
      else match cs[0] case IpArg(v) => Some(v) case _ => None
  }

  /** The value of the LAST well-formed `port=` keyword, if any. */
  function LastPort(cs: seq<Arg>): Option<int> {
    if cs == [] then None
    else
      var later := LastPort(cs[1..]);
      if later.Some? then later
      else match cs[0] case PortArg(n) => Some(n) case _ => None
  }

  /** The value of the LAST `pw=`/`password=`/`rcon=` keyword, if any. */
  function LastPassword(cs: seq<Arg>): Option<string> {
    if cs == [] then None
    else
      var later := LastPassword(cs[1..]);
      if later.Some? then later
      else match cs[0] case PasswordArg(v) => Some(v) case _ => None
  }

  /** The positional arguments, in order. */
  function Positionals(cs: seq<Arg>): seq<string> {
    if cs == [] then []
    else (match cs[0] case PositionalArg(t) => [t] case _ => []) + Positionals(cs[1..])
  }

  function Latest<T>(earlier: Option<T>, later: Option<T>): Option<T> {
    if later.Some? then later else earlier
  }

  /** The scan fails with the first refused argument; otherwise each field
      holds its last keyword (or what it held before) and the positionals are
      collected in order. */
  lemma {:induction false} ScanFromReference(st: Scan, cs: seq<Arg>)
    decreases |cs|
    ensures ScanFrom(st, cs) ==
      match FirstBad(cs)
      case Some(e) => Err(e)
      case None => Ok(Scan(Latest(st.ip, LastIp(cs)), Latest(st.port, LastPort(cs)),
                           Latest(st.pw, LastPassword(cs)), st.pos + Positionals(cs)))
  {
    if cs == [] {
      assert st.pos + [] == st.pos;
    } else if !cs[0].BadPortArg? && !cs[0].UnknownArg? {
      var next := ScanArg(st, cs[0]).value;
      ScanFromReference(next, cs[1..]);
      ScanFromStep(st, cs);
      LatestStep(st, cs);
      PositionalsStep(st, cs);
    }
  }

  /** The first argument, when it is not refused, only moves the scan on. */
  lemma ScanFromStep(st: Scan, cs: seq<Arg>)
    requires cs != [] && !cs[0].BadPortArg? && !cs[0].UnknownArg?
    ensures ScanFrom(st, cs) == ScanFrom(ScanArg(st, cs[0]).value, cs[1..])
    ensures FirstBad(cs) == FirstBad(cs[1..])
  {
  }

  /** ... and hands each field on as the latest value given so far. */
  lemma LatestStep(st: Scan, cs: seq<Arg>)
    requires cs != [] && !cs[0].BadPortArg? && !cs[0].UnknownArg?
    ensures var next := ScanArg(st, cs[0]).value;
      && Latest(st.ip, LastIp(cs)) == Latest(next.ip, LastIp(cs[1..]))
      && Latest(st.port, LastPort(cs)) == Latest(next.port, LastPort(cs[1..]))
      && Latest(st.pw, LastPassword(cs)) == Latest(next.pw, LastPassword(cs[1..]))
  {
  }

  lemma PositionalsStep(st: Scan, cs: seq<Arg>)
    requires cs != [] && !cs[0].BadPortArg? && !cs[0].UnknownArg?
    ensures st.pos + Positionals(cs) == ScanArg(st, cs[0]).value.pos + Positionals(cs[1..])
  {
    if cs[0].PositionalArg? {
      assert Positionals(cs) == [cs[0].text] + Positionals(cs[1..]);
    } else {
      assert Positionals(cs) == Positionals(cs[1..]);
    }
  }

  /** The whole of `!config`'s decision, stated field by field and error by
      error in the order the code checks them: a refused keyword (the first
      one wins), then a non-integer 2nd positional when no `port=` was given,
      then more than three positionals, then a missing or empty ip. */
  function ConfigReference(cs: seq<Arg>): Result<ConfigUpdate, ConfigError> {
    if FirstBad(cs).Some? then Err(FirstBad(cs).value)
    else Decide(LastIp(cs), LastPort(cs), LastPassword(cs), Positionals(cs))
  }

  /** The decision once no keyword was refused, from the last keyword of
      each field and the positionals. */
  function Decide(lastIp: Option<string>, lastPort: Option<int>, lastPw: Option<string>,
                  pos: seq<string>): Result<ConfigUpdate, ConfigError> {
    var ip := if lastIp.Some? then lastIp else if |pos| > 0 then Some(pos[0]) else None;
    var port := if lastPort.Some? then lastPort else if |pos| > 1 then ParseInt(pos[1]) else None;
    var pw := if lastPw.Some? then lastPw else if |pos| > 2 then Some(pos[2]) else None;
    if lastPort.None? && |pos| > 1 && ParseInt(pos[1]).None? then Err(PortNotNumber)
    else if |pos| > 3 then Err(TooManyArguments)
    else if ip.None? || ip.value == "" then Err(MissingIp)
    else Ok(ConfigUpdate(ip.value, port, pw))
  }

  /** The fallback after a clean scan is the reference decision. */
  lemma FinishIsDecide(ip: Option<string>, port: Option<int>, pw: Option<string>, pos: seq<string>)
    ensures Finish(Scan(ip, port, pw, pos)) == Decide(ip, port, pw, pos)
  {
  }

  lemma ScanThenFinishReference(cs: seq<Arg>)
    ensures (match ScanFrom(EmptyScan, cs) case Err(e) => Err(e) case Ok(st) => Finish(st))
            == ConfigReference(cs)
  {
    ScanFromReference(EmptyScan, cs);
    if FirstBad(cs).None? {
      assert EmptyScan.pos + Positionals(cs) == Positionals(cs);
      FinishIsDecide(LastIp(cs), LastPort(cs), LastPassword(cs), Positionals(cs));
    }
  }

  lemma ParseConfigReference(args: seq<string>)
    ensures ParseConfig(args) == ConfigReference(ClassifyAll(args))
  {
    ScanThenFinishReference(ClassifyAll(args));
  }

  /** A later keyword for the same field overrides an earlier one. */
  lemma {:induction false} LastIpIsLatest(cs: seq<Arg>, i: nat)
    requires i < |cs| && cs[i].IpArg?
    requires forall j :: i < j < |cs| ==> !cs[j].IpArg?
    ensures LastIp(cs) == Some(cs[i].ip)
  {
    if i == 0 {
      NoLaterIp(cs[1..]);
    } else {
      LastIpIsLatest(cs[1..], i - 1);
    }
  }

  lemma {:induction false} NoLaterIp(cs: seq<Arg>)
    requires forall j :: 0 <= j < |cs| ==> !cs[j].IpArg?
    ensures LastIp(cs) == None
  {
    if cs != [] {
      NoLaterIp(cs[1..]);
    }
  }

  /** When `port=` was given, the 2nd positional is never parsed: it cannot
      cause the port error, and the keyword's port is the one kept. */
  lemma SecondPositionalIgnoredWhenPortGiven(args: seq<string>)
    requires FirstBad(ClassifyAll(args)).None? && LastPort(ClassifyAll(args)).Some?
    ensures ParseConfig(args) != Err(PortNotNumber)
    ensures ParseConfig(args).Ok? ==> ParseConfig(args).value.port == LastPort(ClassifyAll(args))
  {
    ParseConfigReference(args);
  }

  /** A bad 2nd positional port is reported even when there are too many
      positionals. */
  lemma PortErrorBeforeTooMany(args: seq<string>)
    requires var cs := ClassifyAll(args);
      FirstBad(cs).None? && LastPort(cs).None? && |Positionals(cs)| > 3 && ParseInt(Positionals(cs)[1]).None?
    ensures ParseConfig(args) == Err(PortNotNumber)
  {
    ParseConfigReference(args);
  }

  /** Keywords win over positionals: a positional only fills a field no
      keyword set. */
  lemma KeywordsWinOverPositionals(args: seq<string>)
    requires ParseConfig(args).Ok?
    ensures var u := ParseConfig(args).value;
      var cs := ClassifyAll(args);
      && (LastIp(cs).Some? ==> u.ip == LastIp(cs).value)
      && (LastIp(cs).None? ==> |Positionals(cs)| > 0 && u.ip == Positionals(cs)[0])
      && (LastPort(cs).Some? ==> u.port == LastPort(cs))
      && (LastPassword(cs).Some? ==> u.password == LastPassword(cs))
      && (LastPassword(cs).None? ==> (u.password.Some? <==> |Positionals(cs)| == 3))
  {
    ParseConfigReference(args);
  }

  /** Once nothing else is refused, `!config` fails for want of an ip exactly
      when the ip it ends up with is missing or empty. */
  lemma MissingIpWhenEmpty(args: seq<string>)
    requires var cs := ClassifyAll(args);
      && FirstBad(cs).None? && |Positionals(cs)| <= 3
      && (LastPort(cs).Some? || |Positionals(cs)| <= 1 || ParseInt(Positionals(cs)[1]).Some?)
    ensures var cs := ClassifyAll(args);
      ParseConfig(args) == Err(MissingIp) <==>
        (if LastIp(cs).Some? then LastIp(cs).value == ""
         else Positionals(cs) == [] || Positionals(cs)[0] == "")
  {
    ParseConfigReference(args);
  }

  // ---------------------------------------------------------------------
  // Writing the record
  // ---------------------------------------------------------------------

  /** `raw["ip"] = ip`, then `port` and `password` only when supplied; every
      other key (the prefix) is kept. */
  function ApplyConfig(rec: GuildRecord, u: ConfigUpdate): (r: GuildRecord) {
    GuildRecord(Some(u.ip), Latest(rec.port, u.port), Latest(rec.password, u.password), rec.prefix)
  }

  /** Writing the same update twice leaves the record as writing it once. */
  lemma ApplyConfigIdempotent(rec: GuildRecord, u: ConfigUpdate)
    ensures ApplyConfig(ApplyConfig(rec, u), u) == ApplyConfig(rec, u)
  {
  }

  /** After a write the guild resolves to the written ip, the written port
      and password where supplied, and what it resolved to before elsewhere;
      no other guild's profile changes. */
  lemma GuildConfigAfterUpdate(configs: GuildConfigs, guild: string, d: Defaults, u: ConfigUpdate, other: string)
    ensures var after := configs[guild := ApplyConfig(RecordOf(configs, guild), u)];
      var before := GuildConfig(configs, guild, d);
      && GuildConfig(after, guild, d) ==
           Profile(u.ip, if u.port.Some? then u.port.value else before.port,
                   if u.password.Some? then u.password.value else before.password)
      && (other != guild ==> GuildConfig(after, other, d) == GuildConfig(configs, other, d))
  {
  }

  /** The confirmation lists `ip=…`, then `port=…` and a masked password only
      when written. */
  function UpdateSummary(u: ConfigUpdate): (r: seq<string>)
    ensures |r| == 1 + (if u.port.Some? then 1 else 0) + (if u.password.Some? then 1 else 0)
    ensures r[0] == "ip=" + u.ip
    ensures u.password.Some? ==> r[|r| - 1] == "password=******"
  {
    ["ip=" + u.ip]
    + (if u.port.Some? then ["port=" + IntToString(u.port.value)] else [])
    + (if u.password.Some? then ["password=******"] else [])
  }

  /** `/config`'s port rule: a port equal to 25565 (the option's default) is
      never written. */
  function SlashUpdate(ip: string, port: int, password: Option<string>): (u: ConfigUpdate) {
    ConfigUpdate(ip, if port != 25565 then Some(port) else None, password)
  }

  /** `/config` with port 25565 keeps whatever port was stored, and without a
      password keeps the stored password. */
  lemma SlashKeepsStoredPort(rec: GuildRecord, ip: string, port: int, password: Option<string>)
    ensures var r := ApplyConfig(rec, SlashUpdate(ip, port, password));
      && r.ip == Some(ip)
      && r.port == (if port == 25565 then rec.port else Some(port))
      && r.password == (if password.None? then rec.password else password)
      && r.prefix == rec.prefix
  {
  }

  // ---------------------------------------------------------------------
  // The configuration document and the commands that write it
  // ---------------------------------------------------------------------

  /** The bot's `server_configs` document, and the snapshot last written to
      disk by `save_json`. */
  class ConfigStore {
    var configs: GuildConfigs
    var saved: GuildConfigs

    constructor (loaded: GuildConfigs)
      ensures configs == loaded && saved == loaded
    {
      configs := loaded;
      saved := loaded;
    }

    /** `!config`: `setdefault` creates the guild's record first, so even a
        refused call leaves an (empty) record in memory, unsaved; a
        successful one writes the update and saves the whole document. */
    method Config(guild: string, args: seq<string>) returns (r: Result<seq<string>, ConfigError>)
      modifies this
      ensures var base := RecordOf(old(configs), guild);
        match ParseConfig(args)
        case Err(e) => r == Err(e) && configs == old(configs)[guild := base] && saved == old(saved)
        case Ok(u) => && r == Ok(UpdateSummary(u))
                      && configs == old(configs)[guild := ApplyConfig(base, u)]
                      && saved == configs
    {
      var before := configs;
      var raw := RecordOf(configs, guild);
      configs := configs[guild := raw];
      var parsed := ParseConfigArgs(args);
      if parsed.Err? {
        return Err(parsed.error);
      }
      var u := parsed.value;
      raw := raw.(ip := Some(u.ip));
      if u.port.Some? {
        raw := raw.(port := u.port);
      }
      if u.password.Some? {
        raw := raw.(password := u.password);
      }
      // the record set by `setdefault` is the one now overwritten
      configs := before[guild := raw];
      saved := configs;
      r := Ok(UpdateSummary(u));
    }

    /** `!setserverinfo`: the same command under another name. */
    method SetServerInfo(guild: string, args: seq<string>) returns (r: Result<seq<string>, ConfigError>)
      modifies this
      ensures var base := RecordOf(old(configs), guild);
        match ParseConfig(args)
        case Err(e) => r == Err(e) && configs == old(configs)[guild := base] && saved == old(saved)
        case Ok(u) => && r == Ok(UpdateSummary(u))
                      && configs == old(configs)[guild := ApplyConfig(base, u)]
                      && saved == configs
    {
      r := Config(guild, args);
    }

    /** `/config`: always writes `ip`, writes `port` unless it is 25565,
        writes `password` when given, and saves. */
    method ConfigSlash(guild: string, ip: string, port: int, password: Option<string>) returns (summary: seq<string>)
      modifies this
      ensures var u := SlashUpdate(ip, port, password);
        && configs == old(configs)[guild := ApplyConfig(RecordOf(old(configs), guild), u)]
        && saved == configs
        && summary == UpdateSummary(u)
    {
      var raw := RecordOf(configs, guild);
      raw := raw.(ip := Some(ip));
      if port != 25565 {
        raw := raw.(port := Some(port));
      }
      if password.Some? {
        raw := raw.(password := password);
      }
      configs := configs[guild := raw];
      saved := configs;
      summary := UpdateSummary(SlashUpdate(ip, port, password));
    }

    /** `/setserverinfo`: delegates to `/config`. */
    method SetServerInfoSlash(guild: string, ip: string, port: int, password: Option<string>) returns (summary: seq<string>)
      modifies this
      ensures var u := SlashUpdate(ip, port, password);
        && configs == old(configs)[guild := ApplyConfig(RecordOf(old(configs), guild), u)]
        && saved == configs
        && summary == UpdateSummary(u)
    {
      summary := ConfigSlash(guild, ip, port, password);
    }

    /** `!prefix` and `/prefix`: only the `prefix` key of the guild's record
        changes; the document is saved. */
    method SetPrefix(guild: string, newPrefix: string)
      modifies this
      ensures configs == old(configs)[guild := RecordOf(old(configs), guild).(prefix := Some(newPrefix))]
      ensures saved == configs
    {
      var raw := RecordOf(configs, guild);
      raw := raw.(prefix := Some(newPrefix));
      configs := configs[guild := raw];
      saved := configs;
    }
  }
}
