/** The kernel command line: printed by the host for a runner configuration,
    parsed by the guest agent at boot. */
module KernelCmdline {
  import opened Wrappers
  import opened Text

  const U32Max: nat := 0xFFFF_FFFF
  const U64Max: nat := 0xFFFF_FFFF_FFFF_FFFF

  // ---- decimal numbers ----

  function Digit(d: nat): char
    requires d < 10
  {
    ('0' as int + d) as char
  }

  function Print(n: nat): (s: string)
    ensures s != [] && forall i :: 0 <= i < |s| ==> '0' <= s[i] <= '9'
  {
    (if n < 10 then "" else Print(n / 10)) + [Digit(n % 10)]
  }

  function Digits(s: string): Option<nat> {
    if s == [] then Some(0)
    else
      var init, last := Digits(s[..|s| - 1]), s[|s| - 1];
      if init.Some? && '0' <= last <= '9' then Some(10 * init.value + (last as int - '0' as int)) else None
  }

  /** `str::parse` for an unsigned type: an optional plus sign, then at least one
      digit; too large is an error. */
  function ParseUnsigned(s: string, max: nat): Option<nat> {
    var digits := if s != [] && s[0] == '+' then s[1..] else s;
    if digits == [] then None
    else
      var n := Digits(digits);
      if n.Some? && n.value <= max then n else None
  }

  lemma {:induction false} DigitsPrint(n: nat)
    ensures Digits(Print(n)) == Some(n)
  {
    hide Digits;
    DigitsNext(if n < 10 then "" else Print(n / 10), n % 10);
    if n >= 10 { DigitsPrint(n / 10); } else { NoDigits(); }
  }

  lemma NoDigits()
    ensures Digits("") == Some(0)
  {}

  lemma DigitsNext(s: string, d: nat)
    requires d < 10
    ensures Digits(s + [Digit(d)]) == if Digits(s).Some? then Some(10 * Digits(s).value + d) else None
  {
    assert (s + [Digit(d)])[..|s|] == s;
  }

  lemma {:induction false} ParsePrint(n: nat, max: nat)
    ensures ParseUnsigned(Print(n), max) == if n <= max then Some(n) else None
  {
    DigitsPrint(n);
    assert '0' <= Print(n)[0];
  }

  // ---- the settings on the line ----

  datatype Key = Tmpfs | Uid | Gid | MaxProcesses | MaxOpenFiles | MaxFileSize | Network | RpcPort | Transport
               | WorkspaceDevice | CacheDevice

  function Name(k: Key): string {
    match k
    case Tmpfs => "tmpfs_mib"
    case Uid => "uid"
    case Gid => "gid"
    case MaxProcesses => "max_processes"
    case MaxOpenFiles => "max_open_files"
    case MaxFileSize => "max_file_size_bytes"
    case Network => "network_enabled"
    case RpcPort => "rpc_port"
    case Transport => "rpc_transport"
    case WorkspaceDevice => "workspace_device"
    case CacheDevice => "cache_device"
  }

  function Prefix(k: Key): string {
    "sandbox." + Name(k) + "="
  }

  function StripPrefix(token: string, k: Key): Option<string> {
    if Prefix(k) <= token then Some(token[|Prefix(k)|..]) else None
  }

  predicate Plain(c: char) { 'a' <= c <= 'z' || c == '_' || c == '.' }

  ghost predicate AllPlain(s: string) { forall i :: 0 <= i < |s| ==> Plain(s[i]) }

  lemma PlainName(k: Key)
    ensures AllPlain(Name(k))
  {
    match k {
      case Tmpfs => case Uid => case Gid => case MaxProcesses => case MaxOpenFiles => case RpcPort =>
      case _ => PlainLongName(k);
    }
  }

  lemma PlainLongName(k: Key)
    requires k.MaxFileSize? || k.Network? || k.Transport? || k.WorkspaceDevice? || k.CacheDevice?
    ensures AllPlain(Name(k))
  {}

  lemma PlainIsNotSpace(c: char)
    requires Plain(c) || '!' <= c <= '~'
    ensures !IsSpace(c)
  {}

  lemma PrefixShape(k: Key)
    ensures var p := Prefix(k);
            |p| > 8 && p[0] == 's' && p[|p| - 1] == '=' && forall i :: 0 <= i < |p| - 1 ==> Plain(p[i])
  {
    hide Name;
    PlainName(k);
    assert forall i :: 0 <= i < 8 ==> Plain("sandbox."[i]);
  }

  lemma PrefixesDiffer(a: Key, b: Key)
    requires a != b
    ensures Prefix(a) != Prefix(b)
  {
    assert |Name(a)| != |Name(b)| || Name(a)[0] != Name(b)[0];
    assert |Name(a)| == |Name(b)| ==> Prefix(a)[8] == Name(a)[0] && Prefix(b)[8] == Name(b)[0];
  }

  /** No prefix starts another setting: a token carries at most one. */
  lemma {:induction false} OnePrefix(a: Key, b: Key, value: string)
    requires Prefix(b) <= Prefix(a) + value
    ensures a == b
  {
    PrefixShape(a);
    PrefixShape(b);
    var p, q := Prefix(a), Prefix(b);
    hide Name, Prefix;
    var t := p + value;
    assert forall i :: 0 <= i < |q| ==> t[i] == q[i];
    assert t[|p| - 1] == '=' && t[|q| - 1] == '=';
    assert |p| == |q|;
    assert p == q;
    if a != b { PrefixesDiffer(a, b); }
  }

  // ---- the guest's parser ----

  datatype RpcTransport = Vsock | VirtioSerial

  datatype BootConfig = BootConfig(tmpfsMib: nat, uid: nat, gid: nat, maxProcesses: nat, maxOpenFiles: nat,
                                   maxFileSizeBytes: nat, networkEnabled: bool, rpcPort: nat,
                                   rpcTransport: RpcTransport)

  const Defaults := BootConfig(256, 65534, 65534, 256, 1024, 16 * 1024 * 1024, false, 11000, Vsock)

  function ToAsciiLower(s: string): (t: string)
    ensures |t| == |s|
  {
    if s == [] then [] else [if 'A' <= s[0] <= 'Z' then (s[0] as int + 32) as char else s[0]] + ToAsciiLower(s[1..])
  }

  function ParseRpcTransport(value: string): Option<RpcTransport> {
    match ToAsciiLower(Trim(value))
    case "vsock" => Some(Vsock)
    case "virtio-serial" => Some(VirtioSerial)
    case "virtio_serial" => Some(VirtioSerial)
    case _ => None
  }

  /** The value of the last token for a key. */
  function LastValue(tokens: seq<string>, k: Key): Option<string> {
    if tokens == [] then None
    else
      var v := StripPrefix(tokens[|tokens| - 1], k);
      if v.Some? then v else LastValue(tokens[..|tokens| - 1], k)
  }

  function MaxOf(k: Key): nat { if k == MaxFileSize then U64Max else U32Max }

  /** Whether the parser accepts a value for a key. */
  predicate Parses(k: Key, value: string) {
    match k
    case Transport => ParseRpcTransport(value).Some?
    case WorkspaceDevice => true
    case CacheDevice => true
    case _ => ParseUnsigned(value, MaxOf(k)).Some?
  }

  function NumberOr(k: Key, value: Option<string>, default: nat): nat {
    if value.Some? && ParseUnsigned(value.value, MaxOf(k)).Some?
    then ParseUnsigned(value.value, MaxOf(k)).value
    else default
  }

  function TransportOr(value: Option<string>): RpcTransport {
    if value.Some? && ParseRpcTransport(value.value).Some? then ParseRpcTransport(value.value).value else Vsock
  }

  /** Every setting from its last token, or its default. */
  function ConfigFrom(v: Key -> Option<string>): BootConfig {
    BootConfig(NumberOr(Tmpfs, v(Tmpfs), 256), NumberOr(Uid, v(Uid), 65534), NumberOr(Gid, v(Gid), 65534),
               NumberOr(MaxProcesses, v(MaxProcesses), 256), NumberOr(MaxOpenFiles, v(MaxOpenFiles), 1024),
               NumberOr(MaxFileSize, v(MaxFileSize), 16 * 1024 * 1024), NumberOr(Network, v(Network), 0) != 0,
               NumberOr(RpcPort, v(RpcPort), 11000), TransportOr(v(Transport)))
  }

  function ConfigOf(tokens: seq<string>): BootConfig {
    ConfigFrom(k => LastValue(tokens, k))
  }

  ghost predicate Accepted(token: string) {
    forall k :: StripPrefix(token, k).Some? ==> Parses(k, StripPrefix(token, k).value)
  }

  /** What booting from these tokens gives: all are accepted and the last token of
      each key counts, or the first token not accepted is reported. */
  ghost predicate Boots(tokens: seq<string>, r: Result<BootConfig, Key>) {
    match r
    case Ok(c) => (forall i :: 0 <= i < |tokens| ==> Accepted(tokens[i])) && c == ConfigOf(tokens)
    case Err(k) =>
      exists i :: 0 <= i < |tokens| && StripPrefix(tokens[i], k).Some? && !Parses(k, StripPrefix(tokens[i], k).value)
                  && forall j :: 0 <= j < i ==> Accepted(tokens[j])
  }

  lemma {:induction false} OneKey(token: string, a: Key, b: Key)
    requires StripPrefix(token, a).Some? && StripPrefix(token, b).Some?
    ensures a == b
  {
    hide Prefix;
    assert token == Prefix(a) + StripPrefix(token, a).value;
    OnePrefix(a, b, StripPrefix(token, a).value);
  }

  lemma LastValueSnoc(tokens: seq<string>, token: string, k: Key)
    ensures LastValue(tokens + [token], k) == if StripPrefix(token, k).Some? then StripPrefix(token, k)
              else LastValue(tokens, k)
  {
    hide StripPrefix;
    assert (tokens + [token])[..|tokens|] == tokens;
  }

  /** A token for one key changes that key's value and no other. */
  lemma {:induction false} NextValues(tokens: seq<string>, token: string, k: Key)
    requires StripPrefix(token, k).Some?
    ensures forall j :: LastValue(tokens + [token], j) == if j == k then StripPrefix(token, k) else LastValue(tokens, j)
    ensures Parses(k, StripPrefix(token, k).value) ==> Accepted(token)
  {
    hide StripPrefix, LastValue, Parses;
    forall j ensures LastValue(tokens + [token], j) == if j == k then StripPrefix(token, k) else LastValue(tokens, j) {
      LastValueSnoc(tokens, token, j);
      if StripPrefix(token, j).Some? { OneKey(token, j, k); }
    }
    if Parses(k, StripPrefix(token, k).value) {
      forall j | StripPrefix(token, j).Some? ensures Parses(j, StripPrefix(token, j).value) { OneKey(token, j, k); }
    }
  }

  lemma {:induction false} SameValues(tokens: seq<string>, token: string)
    requires forall k :: StripPrefix(token, k).Some? ==> k == WorkspaceDevice || k == CacheDevice
    ensures ConfigOf(tokens + [token]) == ConfigOf(tokens) && Accepted(token)
  {
    hide StripPrefix, LastValue, NumberOr, TransportOr;
    forall j | j != WorkspaceDevice && j != CacheDevice ensures LastValue(tokens + [token], j) == LastValue(tokens, j) {
      LastValueSnoc(tokens, token, j);
    }
  }

  method ParseU32(value: string, field: Key) returns (r: Result<nat, Key>)
    requires field != MaxFileSize
    ensures r == if ParseUnsigned(value, MaxOf(field)).Some? then Ok(NumberOr(field, Some(value), 0)) else Err(field)
  {
    var n := ParseUnsigned(value, U32Max);
    r := if n.Some? then Ok(n.value) else Err(field);
  }

  /** One token: the prefix tests in their order. */
  method ParseToken(token: string, config: BootConfig, ghost tokens: seq<string>) returns (r: Result<BootConfig, Key>)
    requires config == ConfigOf(tokens)
    ensures r.Ok? ==> Accepted(token) && r.value == ConfigOf(tokens + [token])
    ensures r.Err? ==> StripPrefix(token, r.error).Some? && !Parses(r.error, StripPrefix(token, r.error).value)
  {
    hide StripPrefix, LastValue, ParseUnsigned, ParseRpcTransport;
    if StripPrefix(token, Tmpfs).Some? {
      var n := ParseU32(StripPrefix(token, Tmpfs).value, Tmpfs);
      if n.Err? { return Err(Tmpfs); }
      NextValues(tokens, token, Tmpfs);
      return Ok(config.(tmpfsMib := n.value));
    } else if StripPrefix(token, Uid).Some? {
      var n := ParseU32(StripPrefix(token, Uid).value, Uid);
      if n.Err? { return Err(Uid); }
      NextValues(tokens, token, Uid);
      return Ok(config.(uid := n.value));
    } else if StripPrefix(token, Gid).Some? {
      var n := ParseU32(StripPrefix(token, Gid).value, Gid);
      if n.Err? { return Err(Gid); }
      NextValues(tokens, token, Gid);
      return Ok(config.(gid := n.value));
    } else if StripPrefix(token, MaxProcesses).Some? {
      var n := ParseU32(StripPrefix(token, MaxProcesses).value, MaxProcesses);
      if n.Err? { return Err(MaxProcesses); }
      NextValues(tokens, token, MaxProcesses);
      return Ok(config.(maxProcesses := n.value));
    } else if StripPrefix(token, MaxOpenFiles).Some? {
      var n := ParseU32(StripPrefix(token, MaxOpenFiles).value, MaxOpenFiles);
      if n.Err? { return Err(MaxOpenFiles); }
      NextValues(tokens, token, MaxOpenFiles);
      return Ok(config.(maxOpenFiles := n.value));
    } else if StripPrefix(token, MaxFileSize).Some? {
      var n := ParseUnsigned(StripPrefix(token, MaxFileSize).value, U64Max);
      if n.None? { return Err(MaxFileSize); }
      NextValues(tokens, token, MaxFileSize);
      return Ok(config.(maxFileSizeBytes := n.value));
    } else if StripPrefix(token, Network).Some? {
      var n := ParseU32(StripPrefix(token, Network).value, Network);
      if n.Err? { return Err(Network); }
      NextValues(tokens, token, Network);
      return Ok(config.(networkEnabled := n.value != 0));
    } else if StripPrefix(token, RpcPort).Some? {
      var n := ParseU32(StripPrefix(token, RpcPort).value, RpcPort);
      if n.Err? { return Err(RpcPort); }
      NextValues(tokens, token, RpcPort);
      return Ok(config.(rpcPort := n.value));
    } else if StripPrefix(token, Transport).Some? {
      var t := ParseRpcTransport(StripPrefix(token, Transport).value);
      if t.None? { return Err(Transport); }
      NextValues(tokens, token, Transport);
      return Ok(config.(rpcTransport := t.value));
    }
    SameValues(tokens, token);
    return Ok(config);
  }

  /** `BootConfig::from_cmdline`. */
  method FromCmdline(cmdline: string) returns (r: Result<BootConfig, Key>)
    ensures Boots(SplitWhitespace(cmdline), r)
  {
    hide ConfigFrom, Accepted, StripPrefix, Parses, SplitWhitespace;
    var tokens := SplitWhitespace(cmdline);
    var config := Defaults;
    assert config == ConfigOf(tokens[..0]) by { NoTokens(); }
    for i := 0 to |tokens|
      invariant config == ConfigOf(tokens[..i])
      invariant forall j :: 0 <= j < i ==> Accepted(tokens[j])
    {
      var next := ParseToken(tokens[i], config, tokens[..i]);
      assert tokens[..i] + [tokens[i]] == tokens[..i + 1];
      if next.Err? { return next; }
      config := next.value;
    }
    assert tokens[..|tokens|] == tokens;
    r := Ok(config);
  }

  lemma NoTokens()
    ensures ConfigOf([]) == Defaults
  {}

  /** `cmdline_value`: the value of the first token with the prefix. */
  function FirstValue(tokens: seq<string>, k: Key): Option<string> {
    if tokens == [] then None
    else if StripPrefix(tokens[0], k).Some? then StripPrefix(tokens[0], k)
    else FirstValue(tokens[1..], k)
  }

  function WorkspaceDeviceOf(cmdline: string): string {
    var v := FirstValue(SplitWhitespace(cmdline), WorkspaceDevice);
    if v.Some? then v.value else "/dev/vdb"
  }

  function CacheDeviceOf(cmdline: string): Option<string> {
    FirstValue(SplitWhitespace(cmdline), CacheDevice)
  }

  // ---- the host's printer ----

  datatype Target = Linux | MacX86 | MacArm

  datatype RunnerConfig = RunnerConfig(firmware: bool, secure: bool, cacheImage: bool, tmpfsMib: nat, maxProcesses: nat,
                                       networkEnabled: bool, guestUid: nat, guestGid: nat, guestVsockPort: nat)

  predicate InRange(c: RunnerConfig) {
    && c.tmpfsMib <= U32Max && c.maxProcesses <= U32Max && c.guestUid <= U32Max && c.guestGid <= U32Max
    && c.guestVsockPort <= U32Max
  }

  predicate UsesKrunInit(c: RunnerConfig, target: Target) {
    target == Linux && !c.firmware && !c.secure
  }

  function SaturatingMul(a: nat, b: nat): nat { if a * b > U32Max then U32Max else a * b }

  function OpenFilesFor(c: RunnerConfig): (n: nat)
    ensures 256 <= n <= 4096
    ensures c.maxProcesses <= 16 ==> n == 256
    ensures 16 <= c.maxProcesses <= 256 ==> n == 16 * c.maxProcesses
    ensures c.maxProcesses >= 256 ==> n == 4096
  {
    var n := SaturatingMul(c.maxProcesses, 16);
    if n < 256 then 256 else if n > 4096 then 4096 else n
  }

  const KrunHead := ["reboot=k", "panic=-1", "panic_print=0", "nomodule", "console=hvc0", "root=/dev/root",
                     "rootfstype=virtiofs", "rw", "quiet", "no-kvmapf", "init=/init.krun"]

  const DirectHead := ["console=hvc0", "root=/dev/vda", "ro", "rootfstype=ext4", "rootwait", "loglevel=8",
                       "ignore_loglevel"]

  function Head(c: RunnerConfig, target: Target): seq<string> {
    if UsesKrunInit(c, target) then KrunHead else DirectHead
  }

  function Tail(c: RunnerConfig, target: Target): seq<string> {
    if UsesKrunInit(c, target) then [] else ["panic=-1"]
  }

  datatype Setting = Setting(key: Key, value: string)

  function Settings(c: RunnerConfig, target: Target): seq<Setting> {
    [Setting(WorkspaceDevice, "/dev/vdb"),
     Setting(Tmpfs, Print(c.tmpfsMib)),
     Setting(Uid, Print(c.guestUid)),
     Setting(Gid, Print(c.guestGid)),
     Setting(MaxProcesses, Print(c.maxProcesses)),
     Setting(MaxOpenFiles, Print(OpenFilesFor(c))),
     Setting(MaxFileSize, Print(16 * 1024 * 1024)),
     Setting(RpcPort, Print(c.guestVsockPort)),
     Setting(Network, Print(if c.networkEnabled then 1 else 0))]
    + (if target == MacX86 then [Setting(Transport, "virtio-serial")] else [])
    + (if c.cacheImage then [Setting(CacheDevice, "/dev/vdc")] else [])
  }

  function Texts(settings: seq<Setting>): (texts: seq<string>)
    ensures |texts| == |settings|
    ensures forall i :: 0 <= i < |texts| ==> texts[i] == Prefix(settings[i].key) + settings[i].value
  {
    seq(|settings|, i requires 0 <= i < |settings| => Prefix(settings[i].key) + settings[i].value)
  }

  function Tokens(c: RunnerConfig, target: Target): seq<string> {
    Head(c, target) + Texts(Settings(c, target)) + Tail(c, target)
  }

  /** `kernel_cmdline`. */
  function Cmdline(c: RunnerConfig, target: Target): string {
    Join(Tokens(c, target))
  }

  // ---- reading it back ----

  /** Words that cannot be taken for a setting. */
  ghost predicate Foreign(words: seq<string>) {
    forall i :: 0 <= i < |words| ==> words[i] != [] && words[i][0] != 's'
  }

  lemma ForeignAround(c: RunnerConfig, target: Target)
    ensures Foreign(Head(c, target)) && Foreign(Tail(c, target))
  {}

  ghost predicate Distinct(settings: seq<Setting>) {
    forall i, j :: 0 <= i < j < |settings| ==> settings[i].key != settings[j].key
  }

  lemma SettingsDistinct(c: RunnerConfig, target: Target)
    ensures Distinct(Settings(c, target))
  {
    hide Print, OpenFilesFor;
  }

  lemma StripText(s: Setting, k: Key)
    ensures StripPrefix(Prefix(s.key) + s.value, k) == if k == s.key then Some(s.value) else None
  {
    hide Prefix;
    if StripPrefix(Prefix(s.key) + s.value, k).Some? { OnePrefix(s.key, k, s.value); }
    assert (Prefix(s.key) + s.value)[|Prefix(s.key)|..] == s.value;
    assert Prefix(s.key) <= Prefix(s.key) + s.value;
  }

  lemma ForeignStrip(word: string, k: Key)
    requires word != [] && word[0] != 's'
    ensures StripPrefix(word, k).None?
  {
    PrefixShape(k);
    hide Prefix;
  }

  ghost predicate OnlyAt(tokens: seq<string>, k: Key, at: int) {
    forall i :: 0 <= i < |tokens| && i != at ==> StripPrefix(tokens[i], k).None?
  }

  lemma {:induction false} LastIs(tokens: seq<string>, k: Key, at: int)
    requires OnlyAt(tokens, k, at) && at < |tokens|
    ensures LastValue(tokens, k) == if at < 0 then None else StripPrefix(tokens[at], k)
  {
    hide StripPrefix;
    var n := |tokens| - 1;
    if n >= 0 { LastIs(tokens[..n], k, if at == n then -1 else at); }
  }

  lemma {:induction false} FirstIs(tokens: seq<string>, k: Key, at: int)
    requires OnlyAt(tokens, k, at) && -1 <= at < |tokens|
    ensures FirstValue(tokens, k) == if at < 0 then None else StripPrefix(tokens[at], k)
  {
    hide StripPrefix;
    if tokens != [] { FirstIs(tokens[1..], k, if at < 0 then -1 else at - 1); }
  }

  /** Both readers find, for each key, the one setting printed for it. */
  lemma {:induction false} Found(c: RunnerConfig, target: Target, k: Key, j: int)
    requires -1 <= j < |Settings(c, target)|
    requires if j < 0 then forall i :: 0 <= i < |Settings(c, target)| ==> Settings(c, target)[i].key != k
             else Settings(c, target)[j].key == k
    ensures var v := if j < 0 then None else Some(Settings(c, target)[j].value);
            LastValue(Tokens(c, target), k) == v && FirstValue(Tokens(c, target), k) == v
  {
    hide Head, Tail, Settings, StripPrefix, LastValue, FirstValue;
    ForeignAround(c, target);
    SettingsDistinct(c, target);
    var head, settings, tail := Head(c, target), Settings(c, target), Tail(c, target);
    var tokens := head + Texts(settings) + tail;
    OnlyInSettings(head, settings, tail, k, j);
    hide OnlyAt, Texts;
    LastIs(tokens, k, if j < 0 then -1 else |head| + j);
    FirstIs(tokens, k, if j < 0 then -1 else |head| + j);
  }

  lemma OnlyInSettings(head: seq<string>, settings: seq<Setting>, tail: seq<string>, k: Key, j: int)
    requires Foreign(head) && Foreign(tail) && Distinct(settings) && -1 <= j < |settings|
    requires if j < 0 then forall i :: 0 <= i < |settings| ==> settings[i].key != k else settings[j].key == k
    ensures var tokens, at := head + Texts(settings) + tail, if j < 0 then -1 else |head| + j;
            OnlyAt(tokens, k, at) && (j >= 0 ==> StripPrefix(tokens[at], k) == Some(settings[j].value))
  {
    hide StripPrefix, Prefix;
    var tokens := head + Texts(settings) + tail;
    forall i | 0 <= i < |tokens| && i != (if j < 0 then -1 else |head| + j) ensures StripPrefix(tokens[i], k).None? {
      if i < |head| { ForeignStrip(head[i], k); }
      else if i < |head| + |settings| { StripText(settings[i - |head|], k); }
      else { ForeignStrip(tail[i - |head| - |settings|], k); }
    }
    if j >= 0 { StripText(settings[j], k); }
  }

  predicate Graphic(s: string) {
    s != [] && forall i :: 0 <= i < |s| ==> '!' <= s[i] <= '~'
  }

  lemma GraphicIsWord(s: string)
    requires Graphic(s)
    ensures IsWord(s)
  {
    forall i | 0 <= i < |s| ensures !IsSpace(s[i]) { PlainIsNotSpace(s[i]); }
  }

  lemma GraphicKrunHead(i: nat)
    requires i < |KrunHead|
    ensures Graphic(KrunHead[i])
  {}

  lemma GraphicDirectHead(i: nat)
    requires i < |DirectHead|
    ensures Graphic(DirectHead[i])
  {}

  lemma GraphicAround(c: RunnerConfig, target: Target)
    ensures forall i :: 0 <= i < |Head(c, target)| ==> Graphic(Head(c, target)[i])
    ensures forall i :: 0 <= i < |Tail(c, target)| ==> Graphic(Tail(c, target)[i])
  {
    hide Graphic;
    forall i | 0 <= i < |KrunHead| ensures Graphic(KrunHead[i]) { GraphicKrunHead(i); }
    forall i | 0 <= i < |DirectHead| ensures Graphic(DirectHead[i]) { GraphicDirectHead(i); }
    assert Graphic("panic=-1") by { GraphicKrunHead(1); }
  }

  lemma GraphicDevices()
    ensures Graphic("/dev/vdb") && Graphic("/dev/vdc") && Graphic("virtio-serial")
  {}

  lemma GraphicNumber(n: nat)
    ensures Graphic(Print(n))
  {}

  lemma GraphicSettings(c: RunnerConfig, target: Target)
    ensures forall i :: 0 <= i < |Settings(c, target)| ==> Graphic(Settings(c, target)[i].value)
  {
    hide Graphic, Print, OpenFilesFor;
    GraphicDevices();
    forall n: nat ensures Graphic(Print(n)) { GraphicNumber(n); }
  }

  lemma {:induction false} TokensAreWords(c: RunnerConfig, target: Target)
    ensures forall i :: 0 <= i < |Tokens(c, target)| ==> IsWord(Tokens(c, target)[i])
  {
    hide Head, Tail, Settings, IsWord, Prefix;
    GraphicAround(c, target);
    GraphicSettings(c, target);
    var head, settings, tail := Head(c, target), Settings(c, target), Tail(c, target);
    var tokens := head + Texts(settings) + tail;
    forall i | 0 <= i < |tokens| ensures IsWord(tokens[i]) {
      if |head| <= i < |head| + |settings| { PrefixShape(settings[i - |head|].key); }
      assert Graphic(tokens[i]);
      GraphicIsWord(tokens[i]);
    }
  }

  predicate IsNumber(k: Key) { k != Transport && k != WorkspaceDevice && k != CacheDevice }

  lemma NumberParses(k: Key, n: nat)
    requires IsNumber(k) && n <= MaxOf(k)
    ensures Parses(k, Print(n))
  {
    hide ParseUnsigned, Print;
    ParsePrint(n, MaxOf(k));
  }

  lemma OthersParse()
    ensures Parses(Transport, "virtio-serial")
    ensures forall v :: Parses(WorkspaceDevice, v) && Parses(CacheDevice, v)
  {
    hide ParseRpcTransport;
    TransportParses();
  }

  lemma ValuesParse(c: RunnerConfig, target: Target)
    requires InRange(c)
    ensures forall i :: 0 <= i < |Settings(c, target)| ==>
              Parses(Settings(c, target)[i].key, Settings(c, target)[i].value)
  {
    hide Print, OpenFilesFor, Parses;
    NumberParses(Tmpfs, c.tmpfsMib);
    NumberParses(Uid, c.guestUid);
    NumberParses(Gid, c.guestGid);
    NumberParses(MaxProcesses, c.maxProcesses);
    NumberParses(MaxOpenFiles, OpenFilesFor(c));
    NumberParses(MaxFileSize, 16 * 1024 * 1024);
    NumberParses(RpcPort, c.guestVsockPort);
    NumberParses(Network, if c.networkEnabled then 1 else 0);
    OthersParse();
  }

  lemma {:induction false} TokensAccepted(c: RunnerConfig, target: Target)
    requires InRange(c)
    ensures forall i :: 0 <= i < |Tokens(c, target)| ==> Accepted(Tokens(c, target)[i])
  {
    hide Head, Tail, Settings, StripPrefix, Parses, Prefix;
    ForeignAround(c, target);
    ValuesParse(c, target);
    var head, settings, tail := Head(c, target), Settings(c, target), Tail(c, target);
    var tokens := head + Texts(settings) + tail;
    forall i, k | 0 <= i < |tokens| && StripPrefix(tokens[i], k).Some?
      ensures Parses(k, StripPrefix(tokens[i], k).value)
    {
      if i < |head| { ForeignStrip(head[i], k); }
      else if i < |head| + |settings| { StripText(settings[i - |head|], k); }
      else { ForeignStrip(tail[i - |head| - |settings|], k); }
    }
  }

  function Sent(c: RunnerConfig, target: Target): BootConfig {
    BootConfig(c.tmpfsMib, c.guestUid, c.guestGid, c.maxProcesses, OpenFilesFor(c), 16 * 1024 * 1024,
               c.networkEnabled, c.guestVsockPort, if target == MacX86 then VirtioSerial else Vsock)
  }

  lemma {:induction false} LowerUnchanged(s: string)
    requires forall i :: 0 <= i < |s| ==> !('A' <= s[i] <= 'Z')
    ensures ToAsciiLower(s) == s
  {
    if s != [] { LowerUnchanged(s[1..]); }
  }

  lemma TransportParses()
    ensures ParseRpcTransport("virtio-serial") == Some(VirtioSerial)
  {
    hide ParseRpcTransport, Trim, ToAsciiLower;
    TransportOfLower("virtio-serial");
  }

  lemma TransportOfLower(s: string)
    requires s != [] && !IsSpace(s[0]) && !IsSpace(s[|s| - 1]) && forall i :: 0 <= i < |s| ==> !('A' <= s[i] <= 'Z')
    ensures s == "virtio-serial" ==> ParseRpcTransport(s) == Some(VirtioSerial)
  {
    TrimUnchanged(s);
    LowerUnchanged(s);
    hide Trim, ToAsciiLower, IsSpace;
    assert ToAsciiLower(Trim(s)) == s;
  }

  lemma TrimUnchanged(s: string)
    requires s != [] && !IsSpace(s[0]) && !IsSpace(s[|s| - 1])
    ensures Trim(s) == s
  {}

  lemma FoundNumber(c: RunnerConfig, target: Target, k: Key, j: nat, n: nat, default: nat)
    requires j < |Settings(c, target)| && Settings(c, target)[j] == Setting(k, Print(n)) && n <= MaxOf(k)
    ensures NumberOr(k, LastValue(Tokens(c, target), k), default) == n
  {
    hide Settings, Tokens, Print, ParseUnsigned;
    Found(c, target, k, j);
    ParsePrint(n, MaxOf(k));
  }

  lemma {:induction false} FoundTransport(c: RunnerConfig, target: Target)
    ensures TransportOr(LastValue(Tokens(c, target), Transport)) == if target == MacX86 then VirtioSerial else Vsock
  {
    hide Tokens, Print, LastValue, ParseRpcTransport, OpenFilesFor;
    TransportParses();
    Found(c, target, Transport, if target == MacX86 then 9 else -1);
  }

  lemma NumbersAt(c: RunnerConfig, target: Target)
    ensures |Settings(c, target)| >= 9
    ensures Settings(c, target)[1] == Setting(Tmpfs, Print(c.tmpfsMib))
    ensures Settings(c, target)[2] == Setting(Uid, Print(c.guestUid))
    ensures Settings(c, target)[3] == Setting(Gid, Print(c.guestGid))
    ensures Settings(c, target)[4] == Setting(MaxProcesses, Print(c.maxProcesses))
    ensures Settings(c, target)[5] == Setting(MaxOpenFiles, Print(OpenFilesFor(c)))
    ensures Settings(c, target)[6] == Setting(MaxFileSize, Print(16 * 1024 * 1024))
    ensures Settings(c, target)[7] == Setting(RpcPort, Print(c.guestVsockPort))
    ensures Settings(c, target)[8] == Setting(Network, Print(if c.networkEnabled then 1 else 0))
  {
    hide Print, OpenFilesFor;
  }

  lemma {:induction false} ConfigRoundTrip(c: RunnerConfig, target: Target)
    requires InRange(c)
    ensures ConfigOf(Tokens(c, target)) == Sent(c, target)
  {
    hide Tokens, Print, LastValue, NumberOr, TransportOr, OpenFilesFor, Settings;
    NumbersAt(c, target);
    FoundNumber(c, target, Tmpfs, 1, c.tmpfsMib, 256);
    FoundNumber(c, target, Uid, 2, c.guestUid, 65534);
    FoundNumber(c, target, Gid, 3, c.guestGid, 65534);
    FoundNumber(c, target, MaxProcesses, 4, c.maxProcesses, 256);
    FoundNumber(c, target, MaxOpenFiles, 5, OpenFilesFor(c), 1024);
    FoundNumber(c, target, MaxFileSize, 6, 16 * 1024 * 1024, 16 * 1024 * 1024);
    FoundNumber(c, target, RpcPort, 7, c.guestVsockPort, 11000);
    FoundNumber(c, target, Network, 8, if c.networkEnabled then 1 else 0, 0);
    FoundTransport(c, target);
  }

  /** The guest boots with exactly the settings the host was configured with. */
  lemma {:induction false} BootRoundTrip(c: RunnerConfig, target: Target, r: Result<BootConfig, Key>)
    requires InRange(c) && Boots(SplitWhitespace(Cmdline(c, target)), r)
    ensures r.Ok? && r.value.tmpfsMib == c.tmpfsMib && r.value.uid == c.guestUid && r.value.gid == c.guestGid
    ensures r.value.maxProcesses == c.maxProcesses && r.value.maxOpenFiles == OpenFilesFor(c)
    ensures r.value.maxFileSizeBytes == 0x100_0000 && r.value.networkEnabled == c.networkEnabled
    ensures r.value.rpcPort == c.guestVsockPort && (r.value.rpcTransport.VirtioSerial? <==> target == MacX86)
  {
    assert Sent(c, target).maxFileSizeBytes == 0x100_0000;
    hide SplitWhitespace, Tokens, ConfigOf, Accepted, IsWord, OpenFilesFor, Join, StripPrefix, Parses;
    TokensAreWords(c, target);
    SplitJoin(Tokens(c, target));
    TokensAccepted(c, target);
    ConfigRoundTrip(c, target);
    AcceptedBoots(Tokens(c, target), r);
  }

  lemma AcceptedBoots(tokens: seq<string>, r: Result<BootConfig, Key>)
    requires forall i :: 0 <= i < |tokens| ==> Accepted(tokens[i])
    ensures Boots(tokens, r) ==> r.Ok?
  {
    hide StripPrefix, Parses, ConfigOf;
  }

  lemma {:induction false} SettingsAreNot(c: RunnerConfig, target: Target, word: string)
    requires word != [] && word[0] != 's'
    ensures word !in Texts(Settings(c, target))
  {
    hide Settings, Prefix;
    var settings := Settings(c, target);
    forall i | 0 <= i < |settings| ensures Texts(settings)[i] != word { PrefixShape(settings[i].key); }
  }

  /** A guest boots from the shared root with the library's own init exactly on Linux
      without firmware in the compatible mode, and from a read-only disk otherwise. */
  lemma {:induction false} RootFor(c: RunnerConfig, target: Target)
    ensures var words, krun := SplitWhitespace(Cmdline(c, target)), target == Linux && !c.firmware && !c.secure;
            && ("init=/init.krun" in words <==> krun) && ("root=/dev/root" in words <==> krun)
            && ("rw" in words <==> krun) && ("root=/dev/vda" in words <==> !krun) && ("ro" in words <==> !krun)
            && "panic=-1" in words
  {
    hide SplitWhitespace, Settings, IsWord, Join, Texts;
    TokensAreWords(c, target);
    SplitJoin(Tokens(c, target));
    SettingsAreNot(c, target, "init=/init.krun");
    SettingsAreNot(c, target, "root=/dev/root");
    SettingsAreNot(c, target, "rw");
    SettingsAreNot(c, target, "root=/dev/vda");
    SettingsAreNot(c, target, "ro");
    HeadWords();
  }

  lemma HeadWords()
    ensures "init=/init.krun" in KrunHead && "root=/dev/root" in KrunHead && "rw" in KrunHead
    ensures "root=/dev/vda" in DirectHead && "ro" in DirectHead && "panic=-1" in KrunHead
    ensures "init=/init.krun" !in DirectHead && "root=/dev/root" !in DirectHead && "rw" !in DirectHead
    ensures "root=/dev/vda" !in KrunHead && "ro" !in KrunHead
  {
    assert KrunHead[10] == "init=/init.krun" && KrunHead[5] == "root=/dev/root" && KrunHead[7] == "rw";
    assert DirectHead[1] == "root=/dev/vda" && DirectHead[2] == "ro" && KrunHead[1] == "panic=-1";
    forall i | 0 <= i < |DirectHead|
      ensures DirectHead[i] != "init=/init.krun" && DirectHead[i] != "root=/dev/root" && DirectHead[i] != "rw"
    {
      assert |DirectHead[i]| == 2 ==> DirectHead[i][1] == 'o';
      assert |DirectHead[i]| == 15 ==> DirectHead[i][1] != 'n';
    }
    forall i | 0 <= i < |KrunHead| ensures KrunHead[i] != "root=/dev/vda" && KrunHead[i] != "ro" {
      assert |KrunHead[i]| == 2 ==> KrunHead[i][1] == 'w';
      assert |KrunHead[i]| == 13 ==> KrunHead[i][0] != 'r';
    }
  }

  // ---- the parser's rules ----

  ghost predicate LastAt(tokens: seq<string>, k: Key, v: string, i: nat) {
    && i < |tokens| && StripPrefix(tokens[i], k) == Some(v)
    && forall j :: i < j < |tokens| ==> StripPrefix(tokens[j], k) == None
  }

  lemma LastAtPrefix(tokens: seq<string>, k: Key, v: string, i: nat)
    requires tokens != [] && StripPrefix(tokens[|tokens| - 1], k) == None
    ensures LastAt(tokens, k, v, i) <==> LastAt(tokens[..|tokens| - 1], k, v, i)
  {
    hide StripPrefix;
  }

  /** Of several tokens for a key the last counts; without one there is no value. */
  lemma {:induction false} LastCounts(tokens: seq<string>, k: Key, v: string)
    ensures LastValue(tokens, k) == Some(v) <==> exists i :: LastAt(tokens, k, v, i)
  {
    hide StripPrefix, LastAt;
    if tokens == [] {
      NoLast(k, v);
    } else {
      var n := |tokens| - 1;
      if StripPrefix(tokens[n], k).Some? {
        LastIsLast(tokens, k, v);
      } else {
        LastCounts(tokens[..n], k, v);
        forall i: nat ensures LastAt(tokens, k, v, i) <==> LastAt(tokens[..n], k, v, i) {
          LastAtPrefix(tokens, k, v, i);
        }
      }
    }
  }

  lemma NoLast(k: Key, v: string)
    ensures !exists i :: LastAt([], k, v, i)
  {}

  lemma LastIsLast(tokens: seq<string>, k: Key, v: string)
    requires tokens != [] && StripPrefix(tokens[|tokens| - 1], k).Some?
    ensures StripPrefix(tokens[|tokens| - 1], k) == Some(v) <==> exists i :: LastAt(tokens, k, v, i)
  {
    hide StripPrefix;
    var n := |tokens| - 1;
    if StripPrefix(tokens[n], k) == Some(v) { assert LastAt(tokens, k, v, n); }
  }

  ghost predicate Reads(tokens: seq<string>, k: Key, n: nat, default: nat) {
    match LastValue(tokens, k)
    case None => n == default
    case Some(v) => ParseUnsigned(v, MaxOf(k)).Some? ==> n == ParseUnsigned(v, MaxOf(k)).value
  }

  /** Every setting is what its last token says, or its default; any number but zero turns
      the network on. */
  lemma {:induction false} ConfigByKey(tokens: seq<string>)
    ensures var c := ConfigOf(tokens);
            && Reads(tokens, Tmpfs, c.tmpfsMib, 256) && Reads(tokens, Uid, c.uid, 65534)
            && Reads(tokens, Gid, c.gid, 65534) && Reads(tokens, MaxProcesses, c.maxProcesses, 256)
            && Reads(tokens, MaxOpenFiles, c.maxOpenFiles, 1024)
            && Reads(tokens, MaxFileSize, c.maxFileSizeBytes, 0x100_0000) && Reads(tokens, RpcPort, c.rpcPort, 11000)
    ensures exists n :: Reads(tokens, Network, n, 0) && (ConfigOf(tokens).networkEnabled <==> n != 0)
    ensures LastValue(tokens, Transport) == None ==> ConfigOf(tokens).rpcTransport == Vsock
    ensures forall v, t :: LastValue(tokens, Transport) == Some(v) && ParseRpcTransport(v) == Some(t) ==>
              ConfigOf(tokens).rpcTransport == t
  {
    hide LastValue, ParseUnsigned, ParseRpcTransport;
    var n := NumberOr(Network, LastValue(tokens, Network), 0);
    assert Reads(tokens, Network, n, 0);
  }

  /** The transport's name is read without regard to case or surrounding white space. */
  lemma {:induction false} TransportNames(value: string)
    ensures ToAsciiLower(Trim(value)) == "vsock" ==> ParseRpcTransport(value) == Some(Vsock)
    ensures ToAsciiLower(Trim(value)) == "virtio-serial" || ToAsciiLower(Trim(value)) == "virtio_serial" ==>
              ParseRpcTransport(value) == Some(VirtioSerial)
  {
    hide Trim, ToAsciiLower;
  }

  lemma {:induction false} LowerLetters(s: string)
    ensures forall i :: 0 <= i < |s| ==>
              ToAsciiLower(s)[i] as int == s[i] as int + if 'A' <= s[i] <= 'Z' then 32 else 0
  {
    if s != [] { LowerLetters(s[1..]); }
  }

  function NumberOf(s: string): nat { if Digits(s).Some? then Digits(s).value else 0 }

  ghost predicate AllDigits(s: string) { forall i :: 0 <= i < |s| ==> '0' <= s[i] <= '9' }

  lemma {:induction false} DigitsIff(s: string)
    ensures Digits(s).Some? <==> AllDigits(s)
  {
    if s != [] { DigitsIff(s[..|s| - 1]); }
  }

  /** A number is at least one digit, after at most one plus sign, and not too large. */
  lemma {:induction false} ParsedIff(s: string, max: nat)
    ensures ParseUnsigned(s, max).Some? <==>
              var digits := if s != [] && s[0] == '+' then s[1..] else s;
              digits != [] && AllDigits(digits) && NumberOf(digits) <= max
  {
    DigitsIff(if s != [] && s[0] == '+' then s[1..] else s);
    hide Digits;
  }

  /** The workspace is always the second disk; a cache device is found exactly when
      a cache image is configured, and is then the third. */
  lemma {:induction false} DevicesFound(c: RunnerConfig, target: Target)
    ensures WorkspaceDeviceOf(Cmdline(c, target)) == "/dev/vdb"
    ensures CacheDeviceOf(Cmdline(c, target)) == if c.cacheImage then Some("/dev/vdc") else None
  {
    hide SplitWhitespace, Tokens, IsWord, Join, FirstValue, Print, OpenFilesFor;
    TokensAreWords(c, target);
    SplitJoin(Tokens(c, target));
    Found(c, target, WorkspaceDevice, 0);
    Found(c, target, CacheDevice, if !c.cacheImage then -1 else if target == MacX86 then 10 else 9);
  }
}
