/** Configuring the stack from a list of options. Most options are applied as they come; those of
    the proxy are collected and applied once at the end, those of the STUN server all together at
    the first of them. */
module StackConfig {
  import opened Wrappers
  import opened Text

  datatype Level = NoLevel | StackLevel | SessionLevel | ActionLevel

  datatype Type = Dhcpv4 | Dhcpv6 | DnsNaptr | Header | Impi | Impu | Ipv6 | LocalIp | LocalPort | Password
                | PcscfIp | PcscfPort | PcscfTrans | Realm | SigcompId
                | StunIp | StunPort | StunUsr | StunPwd | OtherType

  /** An option without a value has a null one. */
  datatype Opt = Opt(kind: Type, level: Level, value: Option<string>)

  datatype Network = Network(proxy: Option<string>, port: nat, transport: Option<string>, ipv6: bool)
  datatype Identity = Identity(impi: Option<string>, impu: Option<string>)

  /** One call into the stack. */
  datatype Setting = SetDhcp | SetNaptr | SetHeader(name: string, text: string)
                   | SetText(what: Type, value: Option<string>) | SetLocalPort(port: nat)
                   | SetStunServer(ip: string, port: nat) | SetStunCredentials(usr: string, pwd: Option<string>)
                   | SetProxy(network: Network)

  /** `atoi` of a value, cut to an unsigned number with that many values. */
  function Number(value: Option<string>, modulus: nat): nat
    requires modulus > 0
  {
    if value.None? then 0 else Atoi(value.value) % modulus
  }

  const PORT_MODULUS: nat := 0x1_0000
  const UNSIGNED_MODULUS: nat := 0x1_0000_0000

  // ---------- what a list of options means ----------

  predicate Eligible(o: Opt) {
    o.level.NoLevel? || o.level.StackLevel?
  }

  predicate IsProxy(o: Opt) {
    o.kind.Ipv6? || o.kind.PcscfIp? || o.kind.PcscfPort? || o.kind.PcscfTrans?
  }

  predicate IsStun(o: Opt) {
    o.kind.StunIp? || o.kind.StunPort? || o.kind.StunUsr? || o.kind.StunPwd?
  }

  /** The first option of a kind, on any level. */
  function First(opts: seq<Opt>, kind: Type): (r: Option<Opt>)
    ensures r.Some? ==> r.value in opts && r.value.kind == kind
    ensures r.None? <==> forall o :: o in opts ==> o.kind != kind
  {
    if opts == [] then None
    else if opts[0].kind == kind then Some(opts[0])
    else First(opts[1..], kind)
  }

  /** The last eligible option of a kind. */
  function Last(opts: seq<Opt>, kind: Type): (r: Option<Opt>)
    ensures r.Some? ==> r.value in opts && r.value.kind == kind && Eligible(r.value)
    ensures r.None? <==> forall o :: o in opts && Eligible(o) ==> o.kind != kind
  {
    if opts == [] then None
    else
      var o := opts[|opts| - 1];
      if Eligible(o) && o.kind == kind then Some(o) else Last(opts[..|opts| - 1], kind)
  }

  function FirstValue(opts: seq<Opt>, kind: Type): Option<string> {
    var o := First(opts, kind);
    if o.None? then None else o.value.value
  }

  /** Proxy fields: the last eligible option wins, and what none of them names stays. */
  function NetworkAfter(n: Network, opts: seq<Opt>): Network {
    var ip, port, transport := Last(opts, PcscfIp), Last(opts, PcscfPort), Last(opts, PcscfTrans);
    Network(
      if ip.Some? then ip.value.value else n.proxy,
      if port.Some? then Number(port.value.value, PORT_MODULUS) else n.port,
      if transport.Some? then transport.value.value else n.transport,
      n.ipv6 || Last(opts, Ipv6).Some?)
  }

  function IdentityAfter(i: Identity, opts: seq<Opt>): Identity {
    var impi, impu := Last(opts, Impi), Last(opts, Impu);
    Identity(if impi.Some? then impi.value.value else i.impi, if impu.Some? then impu.value.value else i.impu)
  }

  /** STUN settings: the first option of each kind counts, whatever its level. A server needs an
      address and a port that is not zero, credentials need a user. */
  function StunSettings(opts: seq<Opt>): seq<Setting> {
    var ip, port, usr := FirstValue(opts, StunIp), Number(FirstValue(opts, StunPort), UNSIGNED_MODULUS), FirstValue(opts, StunUsr);
    (if ip.Some? && port != 0 then [SetStunServer(ip.value, port)] else [])
    + (if usr.Some? then [SetStunCredentials(usr.value, FirstValue(opts, StunPwd))] else [])
  }

  /** What an option sets by itself. `parse` splits the text of a header. */
  function Direct(o: Opt, parse: Option<string> -> Option<(string, string)>): seq<Setting> {
    if !Eligible(o) then []
    else
      match o.kind
      case Dhcpv4 | Dhcpv6 => [SetDhcp]
      case DnsNaptr => [SetNaptr]
      case Header =>
        (match parse(o.value)
         case None => []
         case Some((name, text)) => [SetHeader(name, text)])
      case Impi | Impu | LocalIp | Password | Realm | SigcompId => [SetText(o.kind, o.value)]
      case LocalPort => [SetLocalPort(Number(o.value, UNSIGNED_MODULUS))]
      case _ => []
  }

  /** Position of the first eligible STUN option, or the length. */
  function StunAt(opts: seq<Opt>): (k: nat)
    ensures k <= |opts| && (k < |opts| ==> IsStun(opts[k]) && Eligible(opts[k]))
    ensures forall j :: 0 <= j < k ==> !(IsStun(opts[j]) && Eligible(opts[j]))
  {
    if opts == [] || (IsStun(opts[0]) && Eligible(opts[0])) then 0 else 1 + StunAt(opts[1..])
  }

  predicate ProxyChanged(opts: seq<Opt>) {
    exists o :: o in opts && Eligible(o) && IsProxy(o)
  }

  /** The calls for the first `i` options: each makes its own, and the first eligible STUN option
      makes the STUN settings of the whole list. */
  function CallsUpTo(opts: seq<Opt>, i: nat, parse: Option<string> -> Option<(string, string)>): seq<Setting>
    requires i <= |opts|
  {
    if i == 0 then []
    else CallsUpTo(opts, i - 1, parse) + (if i - 1 == StunAt(opts) then StunSettings(opts) else []) + Direct(opts[i - 1], parse)
  }

  /** All calls into the stack, in order; the proxy comes last. */
  function Settings(n: Network, opts: seq<Opt>, parse: Option<string> -> Option<(string, string)>): seq<Setting> {
    CallsUpTo(opts, |opts|, parse) + (if ProxyChanged(opts) then [SetProxy(NetworkAfter(n, opts))] else [])
  }

  // ---------- the option loop ----------

  class Context {
    var network: Network
    var identity: Identity
    /** The calls made into the stack so far. */
    var calls: seq<Setting>

    constructor (network: Network, identity: Identity)
      ensures this.network == network && this.identity == identity && calls == []
    {
      this.network, this.identity, calls := network, identity, [];
    }

    /** One eligible option. The flags say whether the proxy has changed and whether the STUN
        settings have been made. */
    method Apply(opt: Opt, opts: seq<Opt>, parse: Option<string> -> Option<(string, string)>,
                 pcscfChanged0: bool, stunDone0: bool) returns (pcscfChanged: bool, stunDone: bool)
      requires Eligible(opt)
      modifies this
      ensures network == NetworkWith(old(network), opt) && identity == IdentityWith(old(identity), opt)
      ensures pcscfChanged == (pcscfChanged0 || IsProxy(opt)) && stunDone == (stunDone0 || IsStun(opt))
      ensures calls == old(calls) + (if IsStun(opt) && !stunDone0 then StunSettings(opts) else []) + Direct(opt, parse)
    {
      pcscfChanged, stunDone := pcscfChanged0, stunDone0;
      match opt.kind {
        case Dhcpv4 | Dhcpv6 =>
          calls := calls + [SetDhcp];
        case DnsNaptr =>
          calls := calls + [SetNaptr];
        case Header =>
          var param := parse(opt.value);
          if param.Some? {
            calls := calls + [SetHeader(param.value.0, param.value.1)];
          }
        case Impi =>
          identity := identity.(impi := opt.value);
          calls := calls + [SetText(Impi, identity.impi)];
        case Impu =>
          identity := identity.(impu := opt.value);
          calls := calls + [SetText(Impu, identity.impu)];
        case LocalIp | Password | Realm | SigcompId =>
          calls := calls + [SetText(opt.kind, opt.value)];
        case LocalPort =>
          var port := Number(opt.value, UNSIGNED_MODULUS);
          calls := calls + [SetLocalPort(port)];
        case Ipv6 =>
          pcscfChanged := true;
          network := network.(ipv6 := true);
        case PcscfIp =>
          pcscfChanged := true;
          network := network.(proxy := opt.value);
        case PcscfPort =>
          pcscfChanged := true;
          network := network.(port := Number(opt.value, PORT_MODULUS));
        case PcscfTrans =>
          pcscfChanged := true;
          network := network.(transport := opt.value);
        case StunIp | StunPort | StunUsr | StunPwd =>
          if !stunDone {
            ApplyStun(opts);
            stunDone := true;
          }
        case OtherType =>
      }
    }

    method ApplyStun(opts: seq<Opt>)
      modifies this`calls
      ensures calls == old(calls) + StunSettings(opts)
    {
      var ip, usr, pwd := FirstValue(opts, StunIp), FirstValue(opts, StunUsr), FirstValue(opts, StunPwd);
      var port := Number(FirstValue(opts, StunPort), UNSIGNED_MODULUS);
      if ip.Some? && port != 0 {
        calls := calls + [SetStunServer(ip.value, port)];
      }
      if usr.Some? {
        calls := calls + [SetStunCredentials(usr.value, pwd)];
      }
    }

    method OneOption(opt: Opt, opts: seq<Opt>, parse: Option<string> -> Option<(string, string)>,
                     pcscfChanged0: bool, stunDone0: bool, ghost calls0: seq<Setting>, ghost before: Progress)
      returns (pcscfChanged: bool, stunDone: bool, ghost after: Progress)
      requires before == Progress(network, identity, pcscfChanged0, stunDone0, before.calls)
      requires calls == calls0 + before.calls
      modifies this
      ensures after == Progress(network, identity, pcscfChanged, stunDone, after.calls)
      ensures after == Turn(before, opt, opts, parse) && calls == calls0 + after.calls
    {
      hide NetworkWith, IdentityWith, IsProxy, IsStun, StunSettings, Direct;
      pcscfChanged, stunDone, after := pcscfChanged0, stunDone0, Turn(before, opt, opts, parse);
      if Eligible(opt) {
        pcscfChanged, stunDone := Apply(opt, opts, parse, pcscfChanged, stunDone);
      } else {
        NoCalls(opt, parse);
        assert before.calls + [] + [] == before.calls;
      }
    }

    /** All options, before the proxy is applied. */
    method EachOption(opts: seq<Opt>, parse: Option<string> -> Option<(string, string)>)
      returns (pcscfChanged: bool, ghost end: Progress)
      modifies this
      ensures end == After(old(network), old(identity), opts, |opts|, parse)
      ensures end.network == network && end.identity == identity && end.changed == pcscfChanged
      ensures calls == old(calls) + end.calls
    {
      hide *;
      var stunDone := false;
      pcscfChanged := false;
      LoopStart(network, identity, opts, parse);
      ghost var n, id, calls0 := network, identity, calls;
      end := Progress(n, id, false, false, []);
      var i: nat := 0;
      while i < |opts|
        invariant i <= |opts| && end == After(n, id, opts, i, parse)
        invariant end == Progress(network, identity, pcscfChanged, stunDone, end.calls)
        invariant calls == calls0 + end.calls
      {
        LoopTurn(n, id, opts, i, parse);
        pcscfChanged, stunDone, end := OneOption(opts[i], opts, parse, pcscfChanged, stunDone, calls0, end);
        i := i + 1;
      }
    }

    method Config(opts: seq<Opt>, parse: Option<string> -> Option<(string, string)>)
      modifies this
      ensures network == NetworkAfter(old(network), opts)
      ensures identity == IdentityAfter(old(identity), opts)
      ensures calls == old(calls) + Settings(old(network), opts, parse)
    {
      hide *;
      LoopEnd(network, identity, opts, parse);
      ghost var end;
      var pcscfChanged;
      pcscfChanged, end := EachOption(opts, parse);
      if pcscfChanged {
        calls := calls + [SetProxy(network)];
      }
    }
  }

  // ---------- one option more ----------

  function NetworkWith(n: Network, o: Opt): Network {
    match o.kind
    case Ipv6 => n.(ipv6 := true)
    case PcscfIp => n.(proxy := o.value)
    case PcscfPort => n.(port := Number(o.value, PORT_MODULUS))
    case PcscfTrans => n.(transport := o.value)
    case _ => n
  }

  function IdentityWith(i: Identity, o: Opt): Identity {
    match o.kind
    case Impi => i.(impi := o.value)
    case Impu => i.(impu := o.value)
    case _ => i
  }

  /** The state of the option loop. */
  datatype Progress = Progress(network: Network, identity: Identity, changed: bool, stunDone: bool, calls: seq<Setting>)

  function Turn(p: Progress, o: Opt, opts: seq<Opt>, parse: Option<string> -> Option<(string, string)>): Progress {
    var stun := Eligible(o) && IsStun(o);
    Progress(if Eligible(o) then NetworkWith(p.network, o) else p.network,
             if Eligible(o) then IdentityWith(p.identity, o) else p.identity,
             p.changed || (Eligible(o) && IsProxy(o)), p.stunDone || stun,
             p.calls + (if stun && !p.stunDone then StunSettings(opts) else []) + Direct(o, parse))
  }

  function After(n: Network, id: Identity, opts: seq<Opt>, i: nat,
                 parse: Option<string> -> Option<(string, string)>): Progress
    requires i <= |opts|
  {
    if i == 0 then Progress(n, id, false, false, [])
    else Turn(After(n, id, opts, i - 1, parse), opts[i - 1], opts, parse)
  }

  lemma LoopStart(n: Network, id: Identity, opts: seq<Opt>, parse: Option<string> -> Option<(string, string)>)
    ensures After(n, id, opts, 0, parse) == Progress(n, id, false, false, [])
  {
  }

  lemma LoopTurn(n: Network, id: Identity, opts: seq<Opt>, i: nat, parse: Option<string> -> Option<(string, string)>)
    requires i < |opts|
    ensures After(n, id, opts, i + 1, parse) == Turn(After(n, id, opts, i, parse), opts[i], opts, parse)
  {
    hide Turn;
  }

  lemma {:induction false} AfterState(
    n: Network, id: Identity, opts: seq<Opt>, i: nat, parse: Option<string> -> Option<(string, string)>)
    requires i <= |opts|
    ensures (var p := After(n, id, opts, i, parse);
             && p.network == NetworkAfter(n, opts[..i]) && p.identity == IdentityAfter(id, opts[..i])
             && p.changed == ProxyChanged(opts[..i]))
  {
    if i > 0 {
      var before, o := opts[..i - 1], opts[i - 1];
      assert opts[..i] == before + [o];
      LoopTurn(n, id, opts, i - 1, parse);
      TurnState(After(n, id, opts, i - 1, parse), o, opts, parse);
      hide *;
      AfterState(n, id, opts, i - 1, parse);
      NetworkGrows(n, before, o);
      IdentityGrows(id, before, o);
      ChangedGrows(before, o);
    }
  }

  lemma TurnState(p: Progress, o: Opt, opts: seq<Opt>, parse: Option<string> -> Option<(string, string)>)
    ensures (var q := Turn(p, o, opts, parse);
             && q.network == (if Eligible(o) then NetworkWith(p.network, o) else p.network)
             && q.identity == (if Eligible(o) then IdentityWith(p.identity, o) else p.identity)
             && q.changed == (p.changed || (Eligible(o) && IsProxy(o))))
  {
  }

  lemma LastGrows(opts: seq<Opt>, o: Opt, kind: Type)
    ensures Last(opts + [o], kind) == if Eligible(o) && o.kind == kind then Some(o) else Last(opts, kind)
  {
    assert (opts + [o])[..|opts|] == opts;
  }

  lemma NetworkGrows(n: Network, opts: seq<Opt>, o: Opt)
    ensures NetworkAfter(n, opts + [o])
         == if Eligible(o) then NetworkWith(NetworkAfter(n, opts), o) else NetworkAfter(n, opts)
  {
    hide Last, Number;
    LastGrows(opts, o, Ipv6);
    LastGrows(opts, o, PcscfIp);
    LastGrows(opts, o, PcscfPort);
    LastGrows(opts, o, PcscfTrans);
  }

  lemma IdentityGrows(id: Identity, opts: seq<Opt>, o: Opt)
    ensures IdentityAfter(id, opts + [o])
         == if Eligible(o) then IdentityWith(IdentityAfter(id, opts), o) else IdentityAfter(id, opts)
  {
    hide Last;
    LastGrows(opts, o, Impi);
    LastGrows(opts, o, Impu);
  }

  lemma ChangedGrows(opts: seq<Opt>, o: Opt)
    ensures ProxyChanged(opts + [o]) <==> ProxyChanged(opts) || (Eligible(o) && IsProxy(o))
  {
    assert o in opts + [o];
    assert forall p :: p in opts ==> p in opts + [o];
  }

  lemma {:induction false} AfterCalls(
    n: Network, id: Identity, opts: seq<Opt>, i: nat, parse: Option<string> -> Option<(string, string)>)
    requires i <= |opts|
    ensures (var p := After(n, id, opts, i, parse);
             p.calls == CallsUpTo(opts, i, parse) && p.stunDone == (StunAt(opts) < i))
  {
    if i > 0 {
      LoopTurn(n, id, opts, i - 1, parse);
      TurnCalls(After(n, id, opts, i - 1, parse), opts[i - 1], opts, parse);
      CallsUpToTurn(opts, i - 1, parse);
      StunAtOrNot(opts, i - 1);
      hide *;
      AfterCalls(n, id, opts, i - 1, parse);
    }
  }

  lemma TurnCalls(p: Progress, o: Opt, opts: seq<Opt>, parse: Option<string> -> Option<(string, string)>)
    ensures (var stun := Eligible(o) && IsStun(o); var q := Turn(p, o, opts, parse);
             && q.stunDone == (p.stunDone || stun)
             && q.calls == p.calls + (if stun && !p.stunDone then StunSettings(opts) else []) + Direct(o, parse))
  {
  }

  lemma CallsUpToTurn(opts: seq<Opt>, i: nat, parse: Option<string> -> Option<(string, string)>)
    requires i < |opts|
    ensures CallsUpTo(opts, i + 1, parse)
         == CallsUpTo(opts, i, parse) + (if i == StunAt(opts) then StunSettings(opts) else []) + Direct(opts[i], parse)
  {
  }

  lemma StunAtOrNot(opts: seq<Opt>, i: nat)
    requires i < |opts|
    ensures i == StunAt(opts) <==> Eligible(opts[i]) && IsStun(opts[i]) && !(StunAt(opts) < i)
  {
  }

  lemma NoCalls(o: Opt, parse: Option<string> -> Option<(string, string)>)
    requires !Eligible(o)
    ensures Direct(o, parse) == []
  {
  }

  lemma LoopEnd(n: Network, id: Identity, opts: seq<Opt>, parse: Option<string> -> Option<(string, string)>)
    ensures (var p := After(n, id, opts, |opts|, parse);
             && p.network == NetworkAfter(n, opts) && p.identity == IdentityAfter(id, opts)
             && Settings(n, opts, parse) == p.calls + if p.changed then [SetProxy(p.network)] else [])
  {
    assert opts[..|opts|] == opts;
    AfterState(n, id, opts, |opts|, parse);
    AfterCalls(n, id, opts, |opts|, parse);
    hide After, StunAt, NetworkAfter, IdentityAfter, ProxyChanged, CallsUpTo;
  }

  // ---------- laws ----------

  /** What is seen of the proxy depends on the eligible options only. */
  function EligibleOnly(opts: seq<Opt>): seq<Opt> {
    if opts == [] then []
    else EligibleOnly(opts[..|opts| - 1]) + (if Eligible(opts[|opts| - 1]) then [opts[|opts| - 1]] else [])
  }

  lemma {:induction false} LastOfEligible(opts: seq<Opt>, kind: Type)
    ensures Last(EligibleOnly(opts), kind) == Last(opts, kind)
  {
    if opts != [] {
      var rest, o := opts[..|opts| - 1], opts[|opts| - 1];
      LastOfEligible(rest, kind);
      LastGrows(EligibleOnly(rest), o, kind);
      LastGrows(rest, o, kind);
      assert opts == rest + [o] && EligibleOnly(rest) + [] == EligibleOnly(rest);
      hide Last, Eligible;
    }
  }

  lemma {:induction false} InEligible(opts: seq<Opt>, o: Opt)
    ensures o in EligibleOnly(opts) <==> o in opts && Eligible(o)
  {
    if opts != [] {
      InEligible(opts[..|opts| - 1], o);
      assert opts == opts[..|opts| - 1] + [opts[|opts| - 1]];
    }
  }

  /** Options of other levels do not touch the proxy. */
  lemma ProxyNeedsLevel(n: Network, opts: seq<Opt>)
    ensures NetworkAfter(n, EligibleOnly(opts)) == NetworkAfter(n, opts)
    ensures ProxyChanged(EligibleOnly(opts)) <==> ProxyChanged(opts)
  {
    LastOfEligible(opts, Ipv6);
    LastOfEligible(opts, PcscfIp);
    LastOfEligible(opts, PcscfPort);
    LastOfEligible(opts, PcscfTrans);
    forall o: Opt
      ensures o in EligibleOnly(opts) <==> o in opts && Eligible(o)
    {
      InEligible(opts, o);
    }
  }

  function Count(settings: seq<Setting>, p: Setting -> bool): nat {
    if settings == [] then 0 else Count(settings[..|settings| - 1], p) + (if p(settings[|settings| - 1]) then 1 else 0)
  }

  lemma {:induction false} CountAppend(a: seq<Setting>, b: seq<Setting>, p: Setting -> bool)
    ensures Count(a + b, p) == Count(a, p) + Count(b, p)
  {
    if b == [] {
      assert a + b == a;
    } else {
      CountAppend(a, b[..|b| - 1], p);
      assert (a + b)[..|a + b| - 1] == a + b[..|b| - 1];
    }
  }

  /** Settings made for the proxy or a STUN server are never direct ones. */
  predicate Collected(s: Setting) {
    s.SetStunServer? || s.SetStunCredentials? || s.SetProxy?
  }

  ghost predicate CollectedOnly(p: Setting -> bool) {
    forall s :: p(s) ==> Collected(s)
  }

  lemma DirectCountsNothing(o: Opt, parse: Option<string> -> Option<(string, string)>, p: Setting -> bool)
    requires CollectedOnly(p)
    ensures Count(Direct(o, parse), p) == 0
  {
    var d := Direct(o, parse);
    if d != [] {
      assert |d| == 1 && !Collected(d[0]) && d[..0] == [];
      assert !p(d[0]);
    }
  }

  lemma {:induction false} CollectedUpTo(
    opts: seq<Opt>, i: nat, parse: Option<string> -> Option<(string, string)>, p: Setting -> bool)
    requires i <= |opts| && CollectedOnly(p)
    ensures Count(CallsUpTo(opts, i, parse), p) == if StunAt(opts) < i then Count(StunSettings(opts), p) else 0
  {
    hide *;
    if i > 0 {
      CollectedUpTo(opts, i - 1, parse, p);
      CollectedTurn(opts, i - 1, parse, p);
    } else {
      CollectedAtStart(opts, parse, p);
    }
  }

  lemma CollectedAtStart(opts: seq<Opt>, parse: Option<string> -> Option<(string, string)>, p: Setting -> bool)
    ensures Count(CallsUpTo(opts, 0, parse), p) == 0
  {
  }

  lemma CollectedTurn(opts: seq<Opt>, i: nat, parse: Option<string> -> Option<(string, string)>, p: Setting -> bool)
    requires i < |opts| && CollectedOnly(p)
    ensures Count(CallsUpTo(opts, i + 1, parse), p)
         == Count(CallsUpTo(opts, i, parse), p) + if i == StunAt(opts) then Count(StunSettings(opts), p) else 0
  {
    var before, direct := CallsUpTo(opts, i, parse), Direct(opts[i], parse);
    var stun := if i == StunAt(opts) then StunSettings(opts) else [];
    hide *;
    CallsUpToTurn(opts, i, parse);
    DirectCountsNothing(opts[i], parse, p);
    CountAppend(before + stun, direct, p);
    CountAppend(before, stun, p);
    CountNothing(p);
  }

  lemma CountNothing(p: Setting -> bool)
    ensures Count([], p) == 0
  {
  }

  /** Of the collected settings, a run makes those of the STUN options, if one of them is eligible,
      and one for the proxy, if that has changed. */
  lemma CollectedSettings(
    n: Network, opts: seq<Opt>, parse: Option<string> -> Option<(string, string)>, p: Setting -> bool)
    requires CollectedOnly(p)
    ensures Count(Settings(n, opts, parse), p)
         == (if StunAt(opts) < |opts| then Count(StunSettings(opts), p) else 0)
            + (if ProxyChanged(opts) && p(SetProxy(NetworkAfter(n, opts))) then 1 else 0)
  {
    var d := if ProxyChanged(opts) then [SetProxy(NetworkAfter(n, opts))] else [];
    CollectedUpTo(opts, |opts|, parse, p);
    CountAppend(CallsUpTo(opts, |opts|, parse), d, p);
    hide CallsUpTo, StunSettings, StunAt, ProxyChanged, NetworkAfter;
    assert d != [] ==> d[..0] == [];
  }

  predicate IsServer(s: Setting) {
    s.SetStunServer?
  }

  predicate IsCredentials(s: Setting) {
    s.SetStunCredentials?
  }

  predicate IsProxySetting(s: Setting) {
    s.SetProxy?
  }

  ghost predicate StunAsked(opts: seq<Opt>) {
    exists o :: o in opts && IsStun(o) && Eligible(o)
  }

  /** The STUN server is set at most once: exactly when some STUN option is eligible and the first
      address and the first port, eligible or not, can be used. The proxy is set at most once too. */
  lemma AppliedAtMostOnce(n: Network, opts: seq<Opt>, parse: Option<string> -> Option<(string, string)>)
    ensures Count(Settings(n, opts, parse), IsServer)
         == if StunAsked(opts) && FirstValue(opts, StunIp).Some? && Number(FirstValue(opts, StunPort), UNSIGNED_MODULUS) != 0
            then 1 else 0
    ensures Count(Settings(n, opts, parse), IsCredentials)
         == if StunAsked(opts) && FirstValue(opts, StunUsr).Some? then 1 else 0
    ensures Count(Settings(n, opts, parse), IsProxySetting) == if ProxyChanged(opts) then 1 else 0
  {
    StunIsAsked(opts);
    CollectedSettings(n, opts, parse, IsServer);
    CollectedSettings(n, opts, parse, IsCredentials);
    CollectedSettings(n, opts, parse, IsProxySetting);
    StunCounts(opts);
    hide Settings, StunAt, StunAsked, ProxyChanged, NetworkAfter, Number, FirstValue, StunSettings, Count;
  }

  lemma StunIsAsked(opts: seq<Opt>)
    ensures StunAsked(opts) <==> StunAt(opts) < |opts|
  {
    if StunAt(opts) < |opts| {
      assert opts[StunAt(opts)] in opts;
    }
    if o :| o in opts && IsStun(o) && Eligible(o) {
      var j :| 0 <= j < |opts| && opts[j] == o;
    }
  }

  lemma StunCounts(opts: seq<Opt>)
    ensures Count(StunSettings(opts), IsServer)
         == if FirstValue(opts, StunIp).Some? && Number(FirstValue(opts, StunPort), UNSIGNED_MODULUS) != 0 then 1 else 0
    ensures Count(StunSettings(opts), IsCredentials) == if FirstValue(opts, StunUsr).Some? then 1 else 0
    ensures Count(StunSettings(opts), IsProxySetting) == 0
  {
    hide Number, FirstValue;
    var ip, port, usr := FirstValue(opts, StunIp), Number(FirstValue(opts, StunPort), UNSIGNED_MODULUS), FirstValue(opts, StunUsr);
    var a := if ip.Some? && port != 0 then [SetStunServer(ip.value, port)] else [];
    var b := if usr.Some? then [SetStunCredentials(usr.value, FirstValue(opts, StunPwd))] else [];
    forall p: Setting -> bool
      ensures Count(StunSettings(opts), p) == (if a != [] && p(a[0]) then 1 else 0) + (if b != [] && p(b[0]) then 1 else 0)
    {
      CountAppend(a, b, p);
      assert |a| == 1 ==> a[..0] == [];
      assert |b| == 1 ==> b[..0] == [];
    }
  }

  // ---------- laws, option by option ----------

  lemma KindsExactly(o: Opt)
    ensures Eligible(o) <==> o.level != SessionLevel && o.level != ActionLevel
    ensures IsProxy(o) <==> o.kind in {Ipv6, PcscfIp, PcscfPort, PcscfTrans}
    ensures IsStun(o) <==> o.kind in {StunIp, StunPort, StunUsr, StunPwd}
  {
  }

  /** A number is read from blanks, a sign and digits, and cut to its width. */
  lemma NumberReads(blanks: string, sign: string, digits: string, rest: string, modulus: nat)
    requires modulus > 0 && (forall i :: 0 <= i < |blanks| ==> IsSpace(blanks[i])) && Signed(sign, digits, rest)
    ensures Number(Some(blanks + (sign + (digits + rest))), modulus)
         == (if sign == "-" then -(Value(digits) as int) else Value(digits)) % modulus
    ensures PORT_MODULUS == 65536 && UNSIGNED_MODULUS == 65536 * 65536
  {
    AtoiReads(blanks, sign, digits, rest);
    hide Atoi, Value, AllDigits;
  }

  /** What a single option does: the calls it makes, and what it leaves in the configuration. */
  lemma SingleOption(n: Network, id: Identity, o: Opt, parse: Option<string> -> Option<(string, string)>)
    requires o.level == NoLevel || o.level == StackLevel
    ensures (var calls, n', id' := Settings(n, [o], parse), NetworkAfter(n, [o]), IdentityAfter(id, [o]);
             && (o.kind in {Dhcpv4, Dhcpv6} ==> calls == [SetDhcp])
             && (o.kind == DnsNaptr ==> calls == [SetNaptr])
             && (o.kind == Header ==>
                   calls == if parse(o.value).None? then [] else [SetHeader(parse(o.value).value.0, parse(o.value).value.1)])
             && (o.kind in {Impi, Impu, LocalIp, Password, Realm, SigcompId} ==> calls == [SetText(o.kind, o.value)])
             && (o.kind == LocalPort ==> calls == [SetLocalPort(Number(o.value, UNSIGNED_MODULUS))])
             && (o.kind in {PcscfIp, PcscfPort, PcscfTrans, Ipv6} ==> calls == [SetProxy(n')])
             && (o.kind == OtherType ==> calls == [])
             && n' == Network(if o.kind == PcscfIp then o.value else n.proxy,
                              if o.kind == PcscfPort then Number(o.value, PORT_MODULUS) else n.port,
                              if o.kind == PcscfTrans then o.value else n.transport,
                              n.ipv6 || o.kind == Ipv6)
             && id' == Identity(if o.kind == Impi then o.value else id.impi, if o.kind == Impu then o.value else id.impu))
  {
    SingleState(n, id, o);
    SingleCalls(n, o, parse);
    KindsExactly(o);
    hide Settings, NetworkAfter, IdentityAfter, Number, StunSettings, IsStun, IsProxy, Eligible;
  }

  lemma SingleState(n: Network, id: Identity, o: Opt)
    ensures NetworkAfter(n, [o]) == if Eligible(o) then NetworkWith(n, o) else n
    ensures IdentityAfter(id, [o]) == if Eligible(o) then IdentityWith(id, o) else id
    ensures ProxyChanged([o]) <==> Eligible(o) && IsProxy(o)
  {
    assert [] + [o] == [o];
    hide *;
    NetworkGrows(n, [], o);
    IdentityGrows(id, [], o);
    ChangedGrows([], o);
    NothingYet(n, id);
  }

  lemma SingleCalls(n: Network, o: Opt, parse: Option<string> -> Option<(string, string)>)
    ensures Settings(n, [o], parse)
         == (if Eligible(o) && IsStun(o) then StunSettings([o]) else []) + Direct(o, parse)
            + (if Eligible(o) && IsProxy(o) then [SetProxy(NetworkAfter(n, [o]))] else [])
  {
    OnlyCalls(o, parse);
    SingleState(n, Identity(None, None), o);
    hide CallsUpTo, ProxyChanged, NetworkAfter, IdentityAfter, StunSettings, Direct, IsStun, IsProxy, Eligible;
  }

  lemma NothingYet(n: Network, id: Identity)
    ensures NetworkAfter(n, []) == n && IdentityAfter(id, []) == id && !ProxyChanged([])
  {
  }

  lemma OnlyCalls(o: Opt, parse: Option<string> -> Option<(string, string)>)
    ensures CallsUpTo([o], 1, parse)
         == (if Eligible(o) && IsStun(o) then StunSettings([o]) else []) + Direct(o, parse)
  {
    CallsUpToTurn([o], 0, parse);
    StunAtOrNot([o], 0);
    assert CallsUpTo([o], 0, parse) == [];
    hide CallsUpTo, Direct, StunSettings;
  }

  /** An option of another level does nothing. */
  lemma OtherLevel(n: Network, id: Identity, o: Opt, parse: Option<string> -> Option<(string, string)>)
    requires o.level == SessionLevel || o.level == ActionLevel
    ensures Settings(n, [o], parse) == [] && NetworkAfter(n, [o]) == n && IdentityAfter(id, [o]) == id
  {
    SingleState(n, id, o);
    SingleCalls(n, o, parse);
    NoCalls(o, parse);
    hide Settings, NetworkAfter, IdentityAfter, Direct, StunSettings;
  }

  /** Options that are neither for the proxy nor for STUN make their calls one after the other. */
  lemma OneAfterTheOther(n: Network, opts: seq<Opt>, o: Opt, parse: Option<string> -> Option<(string, string)>)
    requires forall p :: p in opts + [o] ==> !IsStun(p) && !IsProxy(p)
    ensures Settings(n, opts + [o], parse) == Settings(n, opts, parse) + Settings(n, [o], parse)
  {
    var all := opts + [o];
    assert forall p :: p in opts || p == o ==> p in all;
    PlainCalls(n, all, parse);
    PlainCalls(n, opts, parse);
    PlainCalls(n, [o], parse);
    OneMoreCall(opts, o, parse);
    hide *;
  }

  lemma PlainCalls(n: Network, opts: seq<Opt>, parse: Option<string> -> Option<(string, string)>)
    requires forall p :: p in opts ==> !IsStun(p) && !IsProxy(p)
    ensures Settings(n, opts, parse) == CallsUpTo(opts, |opts|, parse)
  {
    assert !ProxyChanged(opts);
    hide ProxyChanged, CallsUpTo, NetworkAfter;
    assert CallsUpTo(opts, |opts|, parse) + [] == CallsUpTo(opts, |opts|, parse);
  }

  lemma OneMoreCall(opts: seq<Opt>, o: Opt, parse: Option<string> -> Option<(string, string)>)
    requires forall p :: p in opts + [o] ==> !IsStun(p)
    ensures CallsUpTo(opts + [o], |opts + [o]|, parse) == CallsUpTo(opts, |opts|, parse) + CallsUpTo([o], 1, parse)
  {
    var all := opts + [o];
    assert all[|opts|] == o && o in all;
    NoStunAt(all);
    hide IsStun, StunAt, CallsUpTo, Direct, StunSettings;
    CallsOfPrefix(opts, o, |opts|, parse);
    CallsUpToTurn(all, |opts|, parse);
    OnlyCalls(o, parse);
    Join(CallsUpTo(opts, |opts|, parse), Direct(o, parse));
  }

  lemma Join(a: seq<Setting>, b: seq<Setting>)
    ensures a + [] + b == a + ([] + b) == a + b && [] + b == b
  {
  }

  lemma NoStunAt(opts: seq<Opt>)
    requires forall p :: p in opts ==> !IsStun(p)
    ensures StunAt(opts) == |opts|
  {
  }

  lemma {:induction false} CallsOfPrefix(opts: seq<Opt>, o: Opt, i: nat, parse: Option<string> -> Option<(string, string)>)
    requires i <= |opts| && forall p :: p in opts + [o] ==> !IsStun(p)
    ensures CallsUpTo(opts + [o], i, parse) == CallsUpTo(opts, i, parse)
  {
    assert forall p :: p in opts ==> p in opts + [o];
    NoStunAt(opts);
    NoStunAt(opts + [o]);
    hide Direct, StunSettings, StunAt, IsStun;
    if i > 0 {
      CallsOfPrefix(opts, o, i - 1, parse);
    }
  }

  /** The STUN settings are made where the first eligible STUN option stands, from the whole list. */
  lemma StunComesThere(opts: seq<Opt>, k: nat, parse: Option<string> -> Option<(string, string)>)
    requires k < |opts| && IsStun(opts[k]) && Eligible(opts[k])
    requires forall j :: 0 <= j < k ==> !(IsStun(opts[j]) && Eligible(opts[j]))
    ensures CallsUpTo(opts, k + 1, parse) == CallsUpTo(opts, k, parse) + StunSettings(opts)
  {
    assert StunAt(opts) == k && Direct(opts[k], parse) == [];
    hide *;
    CallsUpToTurn(opts, k, parse);
  }

  predicate FirstAt(opts: seq<Opt>, kind: Type, i: nat)
  {
    i < |opts| && opts[i].kind == kind && forall j :: 0 <= j < i ==> opts[j].kind != kind
  }

  lemma {:induction false} FirstIsAt(opts: seq<Opt>, kind: Type, i: nat)
    requires FirstAt(opts, kind, i)
    ensures First(opts, kind) == Some(opts[i])
  {
    if i > 0 {
      FirstIsAt(opts[1..], kind, i - 1);
    }
  }

  /** The STUN server that is set has the address of the first address option and the number of the
      first port option. */
  lemma StunServerExactly(opts: seq<Opt>, i: nat, j: nat)
    requires FirstAt(opts, StunIp, i) && FirstAt(opts, StunPort, j)
    ensures (var ip, port := opts[i].value, Number(opts[j].value, UNSIGNED_MODULUS);
             forall s :: s in StunSettings(opts) && s.SetStunServer? <==>
               ip.Some? && port != 0 && s == SetStunServer(if ip.Some? then ip.value else "", port))
  {
    hide First, Number, FirstAt;
    FirstIsAt(opts, StunIp, i);
    FirstIsAt(opts, StunPort, j);
    StunParts(opts);
    hide StunSettings;
  }

  lemma StunParts(opts: seq<Opt>)
    ensures (var ip, port, usr := FirstValue(opts, StunIp), Number(FirstValue(opts, StunPort), UNSIGNED_MODULUS),
                                  FirstValue(opts, StunUsr);
             forall s :: s in StunSettings(opts) <==>
               (ip.Some? && port != 0 && s == SetStunServer(ip.value, port))
               || (usr.Some? && s == SetStunCredentials(usr.value, FirstValue(opts, StunPwd))))
  {
    hide First, Number;
  }

  /** The credentials that are set are the user of the first user option and the password of the first
      password option, if there is one. */
  lemma StunCredentialsExactly(opts: seq<Opt>, i: nat, pwd: Option<string>)
    requires FirstAt(opts, StunUsr, i)
    requires if exists o :: o in opts && o.kind == StunPwd then exists j: nat :: FirstAt(opts, StunPwd, j) && opts[j].value == pwd
             else pwd == None
    ensures forall s :: s in StunSettings(opts) && s.SetStunCredentials? <==>
              opts[i].value.Some? && s == SetStunCredentials(if opts[i].value.Some? then opts[i].value.value else "", pwd)
  {
    FirstIsAt(opts, StunUsr, i);
    if j: nat :| FirstAt(opts, StunPwd, j) && opts[j].value == pwd {
      FirstIsAt(opts, StunPwd, j);
      assert opts[j] in opts;
    }
    assert FirstValue(opts, StunPwd) == pwd;
    hide First, Number, FirstAt;
    StunParts(opts);
    hide StunSettings;
  }
}
