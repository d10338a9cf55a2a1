/** The gateway's configuration record and the line-by-line parser that fills it.

    `Env` is the library code the parser calls: URL parsing and public-key normalization. */
module ConfigFile {
  import opened Text
  import opened Toml
  import opened Wrappers

  datatype URL = URL(ok: bool, scheme: string, host: string, hostname: string)

  datatype Env = Env(parse: string -> URL, owner: string -> Option<string>)

  datatype Rule = Rule(
    kind: string, relayURL: string, relayURLs: seq<string>, nip05BaseURL: string,
    ownerPubkey: string, relationship: string, denied: set<string>)

  datatype Group = Group(urls: seq<string>, additional: seq<string>)

  datatype Wiki = Wiki(
    origin: string, title: string, summary: string, wikiPath: string, wikiAPIPath: string,
    wikiLoadPath: string, wikiMainPagePath: string, wikiMainPageTitle: string,
    proxyRoute: string, status: string, audience: seq<string>)

  datatype Config = Config(
    targets: map<string, string>,
    accessRules: map<string, Rule>,
    proxyAccessRules: seq<string>,
    targetAccessRules: map<string, seq<string>>,
    mediaRules: map<string, seq<string>>,
    adminPubkeys: seq<string>,
    ownerPubkey: string,
    additionalRelays: seq<string>,
    groups: map<string, Group>,
    globalRule: map<string, string>,
    wikis: map<string, Wiki>)

  const EMPTY := Config(map[], map[], [], map[], map[], [], "", [], map[], map[], map[])

  const TRUSTROOTS_NIP05 := "trustroots_nip05"
  const NOSTR_FOLLOW := "nostr_follow"
  const DEFAULT_RELAY := "wss://nip42.trustroots.org"

  // ---------- Targets ----------

  function RouteKey(env: Env, value: string): Option<string> {
    var u := env.parse(value);
    if !u.ok || u.host == "" then None
    else
      var lower := Lower(u.hostname);
      var host := if HasPrefix(lower, "www.") then lower[4..] else lower;
      if host == "trustroots.org" then Some("trustroots") else Some(host)
  }

  function AddTarget(env: Env, targets: map<string, string>, value: string): Option<map<string, string>> {
    match RouteKey(env, value)
    case None => None
    case Some(key) => if key in targets then None else Some(targets[key := value])
  }

  function AddTargets(env: Env, targets: map<string, string>, values: seq<string>): Option<map<string, string>>
    decreases |values|
  {
    if values == [] then Some(targets)
    else
      match AddTarget(env, targets, values[0])
      case None => None
      case Some(targets') => AddTargets(env, targets', values[1..])
  }

  predicate IsTargetKey(key: string) {
    key == "targets" || key == "target" || key == "proxy_targets"
  }

  // ---------- Applying one entry ----------

  function GroupOf(cfg: Config, name: string): Group {
    if name in cfg.groups then cfg.groups[name] else Group([], [])
  }

  function WikiOf(cfg: Config, name: string): Wiki {
    if name in cfg.wikis then cfg.wikis[name] else Wiki("", "", "", "", "", "", "", "", "", "", [])
  }

  /** Where the strings of an array go, by section and key. */
  datatype Slot = Targets | Admins | Relays | GroupURLs(name: string) | GroupRules(name: string) | Audience(name: string)

  function SlotOf(section: string, key: string): Option<Slot> {
    if section == "" && IsTargetKey(key) then Some(Targets)
    else if section == "admin" && (key == "pubkeys" || key == "owner_npub") then Some(Admins)
    else if section == "" && key == "additional_relays" then Some(Relays)
    else if HasPrefix(section, "proxy_group.") && key == "urls" then Some(GroupURLs(section[12..]))
    else if HasPrefix(section, "proxy_group.") && key == "additional_access_rule" then Some(GroupRules(section[12..]))
    else if HasPrefix(section, "wiki.") && key == "audience" then Some(Audience(section[5..]))
    else None
  }

  function Fill(env: Env, cfg: Config, slot: Slot, values: seq<string>): Option<Config> {
    match slot
    case Targets =>
      (match AddTargets(env, cfg.targets, values)
       case None => None
       case Some(targets) => Some(cfg.(targets := targets)))
    case Admins => Some(cfg.(adminPubkeys := cfg.adminPubkeys + values))
    case Relays => Some(cfg.(additionalRelays := cfg.additionalRelays + values))
    case GroupURLs(name) =>
      var group := GroupOf(cfg, name);
      Some(cfg.(groups := cfg.groups[name := group.(urls := group.urls + values)]))
    case GroupRules(name) =>
      var group := GroupOf(cfg, name);
      Some(cfg.(groups := cfg.groups[name := group.(additional := group.additional + values)]))
    case Audience(name) =>
      var wiki := WikiOf(cfg, name);
      Some(cfg.(wikis := cfg.wikis[name := wiki.(audience := wiki.audience + values)]))
  }

  function ApplyArray(env: Env, cfg: Config, section: string, key: string, values: seq<string>): Option<Config> {
    match SlotOf(section, key)
    case None => None
    case Some(slot) => Fill(env, cfg, slot, values)
  }

  function TrimSlashes(s: string): string {
    if s != "" && s[|s| - 1] == '/' then TrimSlashes(s[..|s| - 1]) else s
  }

  function NormalizePath(value: string): string {
    var t := Trim(value);
    if t == "" || t == "/" then t
    else TrimSlashes(if HasPrefix(t, "/") then t else "/" + t)
  }

  /** The trimmed non-empty fields between commas, spaces, newlines and tabs. */
  function SplitTokens(s: string, field: string): seq<string> {
    var ended := if Trim(field) == "" then [] else [Trim(field)];
    if s == "" then ended
    else if s[0] == ',' || s[0] == ' ' || s[0] == '\n' || s[0] == '\t' then ended + SplitTokens(s[1..], "")
    else SplitTokens(s[1..], field + [s[0]])
  }

  function ApplyWiki(wiki: Wiki, key: string, value: string): Option<Wiki> {
    if key == "origin" then Some(wiki.(origin := TrimSlashes(value)))
    else if key == "label" then Some(wiki.(title := value))
    else if key == "summary" then Some(wiki.(summary := value))
    else if key == "wiki_path" then Some(wiki.(wikiPath := NormalizePath(value)))
    else if key == "wiki_api_path" then Some(wiki.(wikiAPIPath := NormalizePath(value)))
    else if key == "wiki_load_path" then Some(wiki.(wikiLoadPath := NormalizePath(value)))
    else if key == "wiki_main_page_path" then Some(wiki.(wikiMainPagePath := NormalizePath(value)))
    else if key == "wiki_main_page_title" then Some(wiki.(wikiMainPageTitle := value))
    else if key == "proxy_route" then Some(wiki.(proxyRoute := value))
    else if key == "status" then Some(wiki.(status := value))
    else if key == "audience" then Some(wiki.(audience := SplitTokens(value, "")))
    else None
  }

  function ApplyValue(env: Env, cfg: Config, section: string, key: string, value: string): Option<Config> {
    if section == "" && key == "owner_npub" then
      match env.owner(value)
      case None => None
      case Some(pubkey) => Some(cfg.(ownerPubkey := pubkey))
    else if section == "" && IsTargetKey(key) then
      match AddTarget(env, cfg.targets, value)
      case None => None
      case Some(targets) => Some(cfg.(targets := targets))
    else if section == "targets" then Some(cfg.(targets := cfg.targets[key := value]))
    else if HasPrefix(section, "wiki.") then
      match ApplyWiki(WikiOf(cfg, section[5..]), key, value)
      case None => None
      case Some(wiki) => Some(cfg.(wikis := cfg.wikis[section[5..] := wiki]))
    else None
  }

  function ApplyTable(cfg: Config, section: string, key: string, values: map<string, string>): Option<Config> {
    if section == "" && key == "access_rule" then Some(cfg.(globalRule := values)) else None
  }

  // ---------- Lines ----------

  /** The parser between two lines; `arrayKey` is empty outside a multi-line array. */
  datatype State = State(cfg: Config, section: string, arrayKey: string)

  function KeyValue(env: Env, st: State, key: string, value: string): Option<State> {
    if value == "[" then Some(st.(arrayKey := key))
    else if HasPrefix(value, "[") then
      match ArrayLine(value[1..])
      case None => None
      case Some((values, done)) =>
        match ApplyArray(env, st.cfg, st.section, key, values)
        case None => None
        case Some(cfg) => Some(st.(cfg := cfg, arrayKey := if done then "" else key))
    else if HasPrefix(value, "{") then
      match InlineTable(value)
      case None => None
      case Some(values) =>
        match ApplyTable(st.cfg, st.section, key, values)
        case None => None
        case Some(cfg) => Some(st.(cfg := cfg))
    else
      match ParseString(value)
      case None => None
      case Some(text) =>
        match ApplyValue(env, st.cfg, st.section, key, text)
        case None => None
        case Some(cfg) => Some(st.(cfg := cfg))
  }

  function LineStep(env: Env, st: State, text: string): Option<State> {
    var line := Trim(StripComment(text));
    if line == "" then Some(st)
    else if st.arrayKey != "" then
      match ArrayLine(line)
      case None => None
      case Some((values, done)) =>
        match ApplyArray(env, st.cfg, st.section, st.arrayKey, values)
        case None => None
        case Some(cfg) => Some(st.(cfg := cfg, arrayKey := if done then "" else st.arrayKey))
    else if HasPrefix(line, "[") then
      if HasPrefix(line, "[[") || !HasSuffix(line, "]") then None
      else
        var body := line[1..];
        Some(st.(section := Trim(if HasSuffix(body, "]") then body[..|body| - 1] else body)))
    else
      match IndexOf(line, '=')
      case None => None
      case Some(cut) =>
        var key, value := Trim(line[..cut]), Trim(line[cut + 1..]);
        if key == "" || value == "" then None
        else
          match ParseKey(key)
          case None => None
          case Some(name) => KeyValue(env, st, name, value)
  }

  function ParseLines(env: Env, st: State, lines: seq<string>): Option<State>
    decreases |lines|
  {
    if lines == [] then Some(st)
    else
      match LineStep(env, st, lines[0])
      case None => None
      case Some(st') => ParseLines(env, st', lines[1..])
  }

  // ---------- The global rule ----------

  function FirstRelay(relays: seq<string>): string {
    if relays == [] then DEFAULT_RELAY
    else if Trim(relays[0]) != "" then Trim(relays[0])
    else FirstRelay(relays[1..])
  }

  function TrimmedRelays(relays: seq<string>): seq<string> {
    if relays == [] then []
    else if Trim(relays[0]) != "" then [Trim(relays[0])] + TrimmedRelays(relays[1..])
    else TrimmedRelays(relays[1..])
  }

  function BaseURL(domain: string): string {
    var d := Trim(Lower(domain));
    if d == "trustroots.org" then "https://www.trustroots.org/.well-known/nostr.json"
    else "https://" + d + "/.well-known/nostr.json"
  }

  function RuleOf(cfg: Config, name: string): Rule {
    if name in cfg.accessRules then cfg.accessRules[name] else Rule("", "", [], "", "", "", {})
  }

  function GlobalRuleNames(cfg: Config): seq<string> {
    if cfg.globalRule == map[] then []
    else if "nip05_domain" in cfg.globalRule && Lower(Trim(cfg.globalRule["nip05_domain"])) == "trustroots.org" then
      [TRUSTROOTS_NIP05]
    else ["global_nip05"]
  }

  function ApplyGlobalRule(cfg: Config): Option<Config> {
    if cfg.globalRule == map[] then Some(cfg)
    else if exists k :: k in cfg.globalRule && k != "nip05_domain" then None
    else
      var domain := Trim(if "nip05_domain" in cfg.globalRule then cfg.globalRule["nip05_domain"] else "");
      if domain == "" then None
      else
        var name := if Lower(domain) != "trustroots.org" then "global_nip05" else TRUSTROOTS_NIP05;
        var rule := RuleOf(cfg, name).(
          kind := TRUSTROOTS_NIP05,
          relayURL := FirstRelay(cfg.additionalRelays),
          relayURLs := TrimmedRelays(cfg.additionalRelays),
          nip05BaseURL := BaseURL(domain));
        Some(cfg.(accessRules := cfg.accessRules[name := rule]))
  }

  // ---------- Splitting an array over lines ----------

  lemma {:induction false} AddTargetsConcat(env: Env, targets: map<string, string>, u: seq<string>, v: seq<string>)
    ensures AddTargets(env, targets, u + v) ==
            match AddTargets(env, targets, u) case None => None case Some(t) => AddTargets(env, t, v)
    decreases |u|
  {
    if u == [] {
      assert u + v == v;
    } else {
      assert (u + v)[1..] == u[1..] + v;
      match AddTarget(env, targets, u[0])
      case None =>
      case Some(t) => AddTargetsConcat(env, t, u[1..], v);
    }
  }

  lemma FillConcat(env: Env, cfg: Config, slot: Slot, u: seq<string>, v: seq<string>)
    ensures Fill(env, cfg, slot, u + v) ==
            match Fill(env, cfg, slot, u) case None => None case Some(c) => Fill(env, c, slot, v)
  {
    hide AddTargets;
    match slot
    case Targets => AddTargetsConcat(env, cfg.targets, u, v);
    case Admins => Associative(cfg.adminPubkeys, u, v);
    case Relays => Associative(cfg.additionalRelays, u, v);
    case GroupURLs(name) =>
      var group := GroupOf(cfg, name);
      Associative(group.urls, u, v);
      MapTwice(cfg.groups, name, group.(urls := group.urls + u), group.(urls := group.urls + (u + v)));
    case GroupRules(name) =>
      var group := GroupOf(cfg, name);
      Associative(group.additional, u, v);
      MapTwice(cfg.groups, name, group.(additional := group.additional + u), group.(additional := group.additional + (u + v)));
    case Audience(name) =>
      var wiki := WikiOf(cfg, name);
      Associative(wiki.audience, u, v);
      MapTwice(cfg.wikis, name, wiki.(audience := wiki.audience + u), wiki.(audience := wiki.audience + (u + v)));
  }

  /** Applying two parts of an array one after the other is applying the whole. */
  lemma ApplyConcat(env: Env, cfg: Config, section: string, key: string, u: seq<string>, v: seq<string>)
    ensures ApplyArray(env, cfg, section, key, u + v) ==
            match ApplyArray(env, cfg, section, key, u) case None => None case Some(c) => ApplyArray(env, c, section, key, v)
  {
    hide SlotOf, Fill;
    if SlotOf(section, key).Some? {
      FillConcat(env, cfg, SlotOf(section, key).value, u, v);
    }
  }

  lemma Associative(p: seq<string>, u: seq<string>, v: seq<string>)
    ensures p + (u + v) == (p + u) + v
  {}

  lemma MapTwice<K, V>(m: map<K, V>, k: K, a: V, b: V)
    ensures m[k := a][k := b] == m[k := b]
  {}
}
