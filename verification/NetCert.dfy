/**
 Renewal of the network certificate: one ordering, ensure, over two kinds of device key. On Unix the
 key is in memory until save writes it; on Windows it is a named container that exists before the
 certificate does. Every durable change is an effect, and a crash or an error is a cut between two.
 */
module NetCert {
  import opened Basics
  /** A file: writing one truncates it first. */
  datatype Slot<+T> = Missing | Torn | Holds(value: T)

  /** A certificate for one key pair, issued by one CA. */
  datatype Cert = Cert(serial: string, pair: nat, ca: nat, notBefore: int, notAfter: int)

  /** The three files, the key containers by name, and this device's certificates in the machine store,
      each with the container it is bound to (empty if none). */
  datatype World = World(
    key: Slot<nat>, cert: Slot<Cert>, chain: Slot<nat>, containers: map<string, nat>, store: map<Cert, string>)

  datatype Effect =
    | TearKey | PutKey(pair: nat)
    | TearChain | PutChain(ca: nat)
    | TearCert | PutCert(cert: Cert)
    | UnlinkKey
    | CreateKey(name: string, pair: nat)
    | DeleteKey(name: string)
    | AddCert(cert: Cert)
    | BindCert(cert: Cert, name: string)
    | RemoveCert(cert: Cert)

  function Step(w: World, e: Effect): World {
    match e
    case TearKey => w.(key := Torn)
    case PutKey(pair) => w.(key := Holds(pair))
    case TearChain => w.(chain := Torn)
    case PutChain(ca) => w.(chain := Holds(ca))
    case TearCert => w.(cert := Torn)
    case PutCert(c) => w.(cert := Holds(c))
    case UnlinkKey => w.(key := Missing)
    case CreateKey(name, pair) => w.(containers := w.containers[name := pair])
    case DeleteKey(name) => w.(containers := w.containers - {name})
    case AddCert(c) => w.(store := w.store[c := ""])
    case BindCert(c, name) => w.(store := w.store[c := name])
    case RemoveCert(c) => w.(store := w.store - {c})
  }

  function Apply(w: World, es: seq<Effect>): World {
    if es == [] then w else Step(Apply(w, es[..|es| - 1]), es[|es| - 1])
  }

  lemma {:induction false} ApplyConcat(w: World, a: seq<Effect>, b: seq<Effect>)
    ensures Apply(w, a + b) == Apply(Apply(w, a), b)
  {
    if b == [] {
      assert a + b == a;
    } else {
      assert (a + b)[..|a + b| - 1] == a + b[..|b| - 1];
      ApplyConcat(w, a, b[..|b| - 1]);
    }
  }

  lemma ApplyOne(w: World, e: Effect)
    ensures Apply(w, [e]) == Step(w, e)
  {
    assert Apply(w, [e][..0]) == w;
  }

  // ---------------------------------------------------------------- names and due dates

  const PREFIX := "everwas-8021x-"

  /** keyContainerName, with the digest as a function. */
  function KeyContainerName(digest: string -> string, device: string, predecessor: string): string {
    PREFIX + digest(device + ['\0'] + predecessor)
  }

  ghost predicate Injective(digest: string -> string) {
    forall x, y :: digest(x) == digest(y) ==> x == y
  }

  lemma LastSeparator(d: string, s: string)
    requires '\0' !in s
    ensures var a := d + ['\0'] + s; forall i :: |d| < i < |a| ==> a[i] != '\0'
  {
    var a := d + ['\0'] + s;
    assert a[|d| + 1..] == s;
    forall i | |d| < i < |a| ensures a[i] != '\0' {
      assert a[i] == a[|d| + 1..][i - |d| - 1];
    }
  }

  /** Serials are hexadecimal, so the separator keeps device and serial apart: with a digest that does
      not collide, two renewals share a container only if both agree. */
  lemma NamesDiffer(digest: string -> string, d1: string, s1: string, d2: string, s2: string)
    requires Injective(digest) && '\0' !in s1 && '\0' !in s2
    ensures KeyContainerName(digest, d1, s1) == KeyContainerName(digest, d2, s2) <==> d1 == d2 && s1 == s2
  {
    var a, b := d1 + ['\0'] + s1, d2 + ['\0'] + s2;
    if KeyContainerName(digest, d1, s1) == KeyContainerName(digest, d2, s2) {
      assert digest(a) == KeyContainerName(digest, d1, s1)[|PREFIX|..];
      assert digest(b) == KeyContainerName(digest, d2, s2)[|PREFIX|..];
      LastSeparator(d1, s1);
      LastSeparator(d2, s2);
      assert a == b && a[|d1|] == '\0' && b[|d2|] == '\0';
      assert d1 == a[..|d1|] && d2 == b[..|d2|] && s1 == a[|d1| + 1..] && s2 == b[|d2| + 1..];
    }
  }

  /** Half of a life that makes sense has passed, or it has not begun, or makes none. */
  predicate DueForRenewal(c: Cert, now: int) {
    var life := c.notAfter - c.notBefore;
    life <= 0 || now < c.notBefore || now - c.notBefore >= life / 2
  }

  // ---------------------------------------------------------------- one attempt

  datatype Platform = Unix | Windows

  /** How making the key went: not at all, persisted but failed afterwards, or usable. */
  datatype Making = NoKey | KeyLeft | KeyMade

  /** What an attempt meets. writes is how many of save's file effects happen before one fails; order is
      how the store enumerates, with what the sweep cannot delete. */
  datatype Attempt = Attempt(
    now: int, made: Making, pair: nat, csrOk: bool, reply: Option<Reply>, parses: bool, addOk: bool, bindOk: bool,
    chainOk: bool, order: seq<Cert>, certStuck: set<Cert>, keyStuck: set<string>, writes: nat,
    discardOk: bool, unlinkOk: bool)

  datatype Reply = Reply(serial: string, ca: nat, notBefore: int, notAfter: int)

  function Issued(a: Attempt): Cert
    requires a.reply.Some?
  {
    var r := a.reply.value;
    Cert(r.serial, a.pair, r.ca, r.notBefore, r.notAfter)
  }

  /** The serial of the certificate being replaced, or the empty string. */
  function Predecessor(w: World): string {
    if w.cert.Holds? then w.cert.value.serial else ""
  }

  /** The device, and the digest that names its containers. */
  datatype Identity = Identity(digest: string -> string, device: string)

  /** The container a renewal from here would use. */
  function NameIn(w: World, who: Identity): string {
    KeyContainerName(who.digest, who.device, Predecessor(w))
  }

  function MakeEffects(p: Platform, a: Attempt, name: string): seq<Effect> {
    if p == Windows && a.made != NoKey then [CreateKey(name, a.pair)] else []
  }

  function DiscardEffects(p: Platform, a: Attempt, name: string): seq<Effect> {
    if p == Windows && a.discardOk then [DeleteKey(name)] else []
  }

  function SaveFiles(c: Cert): seq<Effect> {
    [TearChain, PutChain(c.ca), TearCert, PutCert(c)]
  }

  function Cut(es: seq<Effect>, n: nat): seq<Effect> {
    if n < |es| then es[..n] else es
  }

  /** saveAll: the key, then the chain, then the certificate. A certificate that does not parse is found
      out only after the key is written. */
  function UnixSave(a: Attempt): seq<Effect>
    requires a.reply.Some?
  {
    Cut([TearKey, PutKey(a.pair)] + (if a.parses then SaveFiles(Issued(a)) else []), a.writes)
  }

  predicate UnixSaved(a: Attempt) { a.parses && a.writes >= 6 }

  /** sweepSuperseded: each other certificate of this device, then the container it is bound to. */
  function SweepOne(store: map<Cert, string>, keep: Cert, c: Cert, a: Attempt): seq<Effect> {
    if c !in store || c == keep then []
    else
      (if c in a.certStuck then [] else [RemoveCert(c)])
      + (if PREFIX <= store[c] && store[c] !in a.keyStuck then [DeleteKey(store[c])] else [])
  }

  function Sweep(store: map<Cert, string>, keep: Cert, order: seq<Cert>, a: Attempt): seq<Effect> {
    if order == [] then []
    else Sweep(store, keep, order[..|order| - 1], a) + SweepOne(store, keep, order[|order| - 1], a)
  }

  predicate Installed(a: Attempt) { a.parses && a.addOk && a.bindOk && a.chainOk }

  /** installCertificate. */
  function InstallEffects(store: map<Cert, string>, a: Attempt, name: string): seq<Effect>
    requires a.reply.Some?
  {
    var c := Issued(a);
    if !a.parses || !a.addOk then []
    else if !a.bindOk then [AddCert(c)]
    else [AddCert(c), BindCert(c, name)] + if a.chainOk then Sweep(store, c, a.order, a) else []
  }

  /** installCertificate, then Save, then the file a key may have been in. */
  function WindowsSave(store: map<Cert, string>, a: Attempt, name: string): seq<Effect>
    requires a.reply.Some?
  {
    InstallEffects(store, a, name)
    + (if Installed(a) then Cut(SaveFiles(Issued(a)), a.writes) else [])
    + (if WindowsSaved(a) && a.unlinkOk then [UnlinkKey] else [])
  }

  predicate WindowsSaved(a: Attempt) { Installed(a) && a.writes >= 4 }

  predicate Saved(p: Platform, a: Attempt) {
    if p == Unix then UnixSaved(a) else WindowsSaved(a)
  }

  function SaveEffects(store: map<Cert, string>, p: Platform, a: Attempt, name: string): seq<Effect>
    requires a.reply.Some?
  {
    if p == Unix then UnixSave(a) else WindowsSave(store, a, name)
  }

  predicate Reached(a: Attempt) { a.made == KeyMade && a.csrOk && a.reply.Some? }

  /** Whether ensure goes on past its first look at the files. */
  predicate Renews(w: World, now: int) {
    w.cert.Missing? || (w.cert.Holds? && DueForRenewal(w.cert.value, now))
  }

  /** ensure, as the effects it has. */
  function Effects(w: World, p: Platform, a: Attempt, who: Identity): seq<Effect> {
    if !Renews(w, a.now) then []
    else
      var name := NameIn(w, who);
      MakeEffects(p, a, name)
      + if a.made != KeyMade then []
        else if !Reached(a) then DiscardEffects(p, a, name)
        else SaveEffects(w.store, p, a, name) + if Saved(p, a) then [] else DiscardEffects(p, a, name)
  }

  /** What ensure returns: what it already held, a new certificate, or an error, with what is still held
      when the server was the one to fail. */
  datatype Answer = Current(held: Cert) | Renewed(cert: Cert) | Failed | FailedHolding(was: Option<Cert>)

  function AnswerOf(w: World, p: Platform, a: Attempt): Answer {
    if w.cert.Torn? then Failed
    else if !Renews(w, a.now) then Current(w.cert.value)
    else if a.made != KeyMade || !a.csrOk then Failed
    else if a.reply.None? then FailedHolding(if w.cert.Holds? then Some(w.cert.value) else None)
    else if Saved(p, a) then Renewed(Issued(a))
    else Failed
  }

  // ---------------------------------------------------------------- the device

  /** The log is every effect so far, and accounts for what the device holds. */
  class Device {
    var w: World
    ghost const start: World
    ghost var log: seq<Effect>

    ghost predicate Valid() reads this { w == Apply(start, log) }

    constructor (w: World)
      ensures Valid() && this.w == w && log == []
    {
      this.w, start, log := w, w, [];
    }

    method Do(e: Effect)
      requires Valid()
      modifies this
      ensures Valid() && log == old(log) + [e] && w == Step(old(w), e)
    {
      w := Step(w, e);
      assert (log + [e])[..|log|] == log;
      log := log + [e];
    }

    method DoAll(es: seq<Effect>)
      requires Valid()
      modifies this
      ensures Valid() && log == old(log) + es
    {
      for i := 0 to |es|
        invariant Valid() && log == old(log) + es[..i]
      {
        assert es[..i + 1] == es[..i] + [es[i]];
        Do(es[i]);
      }
      assert es[..|es|] == es;
    }

    method SweepSuperseded(store: map<Cert, string>, keep: Cert, a: Attempt)
      requires Valid()
      modifies this
      ensures Valid() && log == old(log) + Sweep(store, keep, a.order, a)
    {
      hide Apply, SweepOne;
      for i := 0 to |a.order|
        invariant Valid() && log == old(log) + Sweep(store, keep, a.order[..i], a)
      {
        assert a.order[..i + 1][..i] == a.order[..i];
        DeleteSuperseded(store, keep, a.order[i], a);
      }
      assert a.order[..|a.order|] == a.order;
    }

    method DeleteSuperseded(store: map<Cert, string>, keep: Cert, c: Cert, a: Attempt)
      requires Valid()
      modifies this
      ensures Valid() && log == old(log) + SweepOne(store, keep, c, a)
    {
      hide Apply;
      if c in store && c != keep {
        if c !in a.certStuck {
          Do(RemoveCert(c));
        }
        if PREFIX <= store[c] && store[c] !in a.keyStuck {
          Do(DeleteKey(store[c]));
        }
      }
    }

    method InstallCertificate(a: Attempt, name: string) returns (ok: bool)
      requires Valid() && a.reply.Some?
      modifies this
      ensures Valid() && ok == Installed(a) && log == old(log) + InstallEffects(old(w.store), a, name)
    {
      hide Sweep, Apply;
      var c, store := Issued(a), w.store;
      if !a.parses || !a.addOk {
        return false;
      }
      Do(AddCert(c));
      if !a.bindOk {
        return false;
      }
      Do(BindCert(c, name));
      if !a.chainOk {
        return false;
      }
      SweepSuperseded(store, c, a);
      return true;
    }

    method InstallAndSave(a: Attempt, name: string) returns (ok: bool)
      requires Valid() && a.reply.Some?
      modifies this
      ensures Valid() && ok == WindowsSaved(a) && log == old(log) + WindowsSave(old(w.store), a, name)
    {
      hide InstallEffects, Apply, SaveFiles, Cut;
      ok := InstallCertificate(a, name);
      if ok {
        DoAll(Cut(SaveFiles(Issued(a)), a.writes));
        ok := a.writes >= 4;
        if ok && a.unlinkOk {
          Do(UnlinkKey);
        }
      }
    }

    method Ensure(p: Platform, a: Attempt, who: Identity) returns (r: Answer)
      requires Valid()
      modifies this
      ensures Valid() && r == AnswerOf(old(w), p, a) && log == old(log) + Effects(old(w), p, a, who)
    {
      hide Apply, UnixSave, WindowsSave, NameIn;
      if w.cert.Torn? {
        return Failed;
      }
      if !Renews(w, a.now) {
        return Current(w.cert.value);
      }
      var name := NameIn(w, who);
      var held, undo := w.cert, DiscardEffects(p, a, name);
      if p == Windows && a.made != NoKey {
        Do(CreateKey(name, a.pair));
      }
      if a.made != KeyMade {
        return Failed;
      }
      if !a.csrOk {
        DoAll(undo);
        return Failed;
      }
      if a.reply.None? {
        DoAll(undo);
        return FailedHolding(if held.Holds? then Some(held.value) else None);
      }
      var ok;
      if p == Unix {
        DoAll(UnixSave(a));
        ok := UnixSaved(a);
      } else {
        ok := InstallAndSave(a, name);
      }
      if ok {
        return Renewed(Issued(a));
      }
      DoAll(undo);
      return Failed;
    }
  }
}
