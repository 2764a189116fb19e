/**
 Renewals that reach the Windows certificate store: which of them keep the device on the network, at
 every step, and which take it off.
 */
module NetCertStore {
  import opened Basics
  import opened NetCert
  import opened NetCertRuns

  // ---------------------------------------------------------------- the sweep, exactly

  predicate SweptCert(store: map<Cert, string>, keep: Cert, order: seq<Cert>, a: Attempt, d: Cert) {
    d in order && d in store && d != keep && d !in a.certStuck
  }

  predicate DeletesKey(name: string, a: Attempt) { PREFIX <= name && name !in a.keyStuck }

  predicate SweptKey(store: map<Cert, string>, keep: Cert, order: seq<Cert>, a: Attempt, name: string) {
    DeletesKey(name, a) && exists d :: d in order && d in store && d != keep && store[d] == name
  }

  /** u is w without what the sweep of these certificates deletes, and with nothing else changed. */
  ghost predicate Swept(w: World, u: World, store: map<Cert, string>, keep: Cert, order: seq<Cert>, a: Attempt) {
    && u.key == w.key && u.cert == w.cert && u.chain == w.chain
    && (forall d :: d in u.store <==> d in w.store && !SweptCert(store, keep, order, a, d))
    && (forall d :: d in u.store ==> u.store[d] == w.store[d])
    && (forall n :: n in u.containers <==> n in w.containers && !SweptKey(store, keep, order, a, n))
    && (forall n :: n in u.containers ==> u.containers[n] == w.containers[n])
  }

  lemma SweepOneIs(w: World, store: map<Cert, string>, keep: Cert, c: Cert, a: Attempt)
    ensures var u := Apply(w, SweepOne(store, keep, c, a)); var mine := c in store && c != keep;
            && u.key == w.key && u.cert == w.cert && u.chain == w.chain
            && u.store == (if mine && c !in a.certStuck then w.store - {c} else w.store)
            && u.containers == (if mine && DeletesKey(store[c], a) then w.containers - {store[c]} else w.containers)
  {
    if c in store && c != keep {
      var one := if c in a.certStuck then [] else [RemoveCert(c)];
      var two := if PREFIX <= store[c] && store[c] !in a.keyStuck then [DeleteKey(store[c])] else [];
      ApplyConcat(w, one, two);
      ApplyOne(w, RemoveCert(c));
      ApplyOne(Apply(w, one), DeleteKey(store[c]));
    }
  }

  lemma SweptSnoc(w: World, v: World, u: World, store: map<Cert, string>, keep: Cert, order: seq<Cert>, c: Cert,
      a: Attempt)
    requires Swept(w, v, store, keep, order, a)
    requires var mine := c in store && c != keep;
             && u.key == v.key && u.cert == v.cert && u.chain == v.chain
             && u.store == (if mine && c !in a.certStuck then v.store - {c} else v.store)
             && u.containers == (if mine && DeletesKey(store[c], a) then v.containers - {store[c]} else v.containers)
    ensures Swept(w, u, store, keep, order + [c], a)
  {
    var more := order + [c];
    forall d
      ensures SweptCert(store, keep, more, a, d)
              <==> SweptCert(store, keep, order, a, d) || (d == c && SweptCert(store, keep, more, a, c))
    {
    }
    forall n ensures SweptKey(store, keep, more, a, n)
                     <==> SweptKey(store, keep, order, a, n)
                          || (c in store && c != keep && store[c] == n && DeletesKey(n, a))
    {
      if c in store && c != keep && store[c] == n && DeletesKey(n, a) {
        assert c in more;
      }
    }
  }

  lemma SweptNone(w: World, store: map<Cert, string>, keep: Cert, a: Attempt)
    ensures Swept(w, w, store, keep, [], a)
  {
  }

  lemma {:induction false} SweepIs(w: World, store: map<Cert, string>, keep: Cert, order: seq<Cert>, a: Attempt)
    ensures Swept(w, Apply(w, Sweep(store, keep, order, a)), store, keep, order, a)
  {
    hide Swept, Apply, SweepOne;
    if order == [] {
      SweptNone(w, store, keep, a);
      NoneLeaves(w);
    } else {
      var front, c := order[..|order| - 1], order[|order| - 1];
      SweepIs(w, store, keep, front, a);
      var v := Apply(w, Sweep(store, keep, front, a));
      ApplyConcat(w, Sweep(store, keep, front, a), SweepOne(store, keep, c, a));
      SweepOneIs(v, store, keep, c, a);
      SweptSnoc(w, v, Apply(v, SweepOne(store, keep, c, a)), store, keep, front, c, a);
      assert front + [c] == order;
    }
  }

  // ---------------------------------------------------------------- an attempt that installs

  /** An attempt that gets its certificate into the store, bound and with its chain. */
  predicate Installs(w: World, a: Attempt) {
    Renews(w, a.now) && Reached(a) && Installed(a) && Issued(a) !in w.store
  }

  /** The key created, the certificate added and bound. */
  function Bound(w: World, a: Attempt, name: string): World
    requires a.reply.Some?
  {
    w.(containers := w.containers[name := a.pair], store := w.store[Issued(a) := name])
  }

  function Head(a: Attempt, name: string): seq<Effect>
    requires a.reply.Some?
  {
    [CreateKey(name, a.pair), AddCert(Issued(a)), BindCert(Issued(a), name)]
  }

  /** What comes after the sweep: the files, and on failure the discard. */
  function Tail(a: Attempt, name: string): seq<Effect>
    requires a.reply.Some?
  {
    Cut(SaveFiles(Issued(a)), a.writes)
    + if a.writes >= 4 then (if a.unlinkOk then [UnlinkKey] else [])
      else if a.discardOk then [DeleteKey(name)] else []
  }

  lemma EffectsAre(w: World, a: Attempt, who: Identity)
    requires Installs(w, a)
    ensures var name := NameIn(w, who);
            Effects(w, Windows, a, who) == Head(a, name) + Sweep(w.store, Issued(a), a.order, a) + Tail(a, name)
  {
    hide NameIn, Sweep, SaveFiles, Cut, Renews;
  }

  lemma HeadIs(w: World, a: Attempt, name: string)
    requires a.reply.Some?
    ensures Apply(w, Head(a, name)) == Bound(w, a, name)
  {
    var h := Head(a, name);
    assert h[..2][..1] == h[..1] && h[..1] == [CreateKey(name, a.pair)];
    ApplyOne(w, h[0]);
    assert Apply(w, h[..2]) == Step(Apply(w, h[..1]), h[1]);
    assert w.store[Issued(a) := ""][Issued(a) := name] == w.store[Issued(a) := name];
  }

  lemma FilesWritten(w: World, c: Cert)
    ensures Apply(w, SaveFiles(c)) == w.(chain := Holds(c.ca), cert := Holds(c))
  {
    var f := SaveFiles(c);
    assert f[..3][..2] == f[..2] && f[..2][..1] == f[..1] && f[..1] == [TearChain];
    ApplyOne(w, TearChain);
    assert Apply(w, f[..2]) == Step(Apply(w, f[..1]), f[1]);
    assert Apply(w, f[..3]) == Step(Apply(w, f[..2]), f[2]);
  }

  lemma TailIs(w: World, a: Attempt, name: string)
    requires a.reply.Some?
    ensures var u := Apply(w, Tail(a, name));
            && u.store == w.store
            && u.containers == (if a.writes < 4 && a.discardOk then w.containers - {name} else w.containers)
            && (a.writes >= 4 ==> u.cert == Holds(Issued(a)) && u.chain == Holds(Issued(a).ca)
                                  && u.key == if a.unlinkOk then Missing else w.key)
  {
    hide SaveFiles, Apply;
    var files := Cut(SaveFiles(Issued(a)), a.writes);
    CutFilesLeave(w, Issued(a), a.writes);
    FilesWritten(w, Issued(a));
    assert a.writes >= 4 ==> files == SaveFiles(Issued(a)) by { FourFiles(Issued(a)); }
    hide Cut;
    var last := if a.writes >= 4 then UnlinkKey else DeleteKey(name);
    ApplyConcat(w, files, [last]);
    ApplyOne(Apply(w, files), last);
    assert files + [] == files;
  }

  lemma FourFiles(c: Cert)
    ensures |SaveFiles(c)| == 4
  {
  }

  lemma CutFilesLeave(w: World, c: Cert, n: nat)
    ensures var u := Apply(w, Cut(SaveFiles(c), n)); u.store == w.store && u.containers == w.containers
  {
    hide Apply;
    FilesLeaveTheStore(w, Cut(SaveFiles(c), n));
  }

  /** The state after an attempt that installs, whatever its sweep and its files meet. */
  lemma InstalledState(w: World, a: Attempt, who: Identity) returns (v: World, u: World)
    requires Installs(w, a)
    ensures u == Apply(w, Effects(w, Windows, a, who))
    ensures Swept(Bound(w, a, NameIn(w, who)), v, w.store, Issued(a), a.order, a)
    ensures u.store == v.store
    ensures u.containers == (if a.writes < 4 && a.discardOk then v.containers - {NameIn(w, who)} else v.containers)
    ensures a.writes >= 4 ==> u.cert == Holds(Issued(a)) && u.chain == Holds(Issued(a).ca)
                              && u.key == if a.unlinkOk then Missing else w.key
  {
    var name, s := NameIn(w, who), Sweep(w.store, Issued(a), a.order, a);
    EffectsAre(w, a, who);
    HeadIs(w, a, name);
    SweepIs(Bound(w, a, name), w.store, Issued(a), a.order, a);
    v := Apply(Bound(w, a, name), s);
    TailIs(v, a, name);
    u := Apply(v, Tail(a, name));
    hide Swept, Apply, Head, Tail, Effects, NameIn, Bound, Installs;
    ApplyConcat(w, Head(a, name), s);
    ApplyConcat(w, Head(a, name) + s, Tail(a, name));
  }

  // ---------------------------------------------------------------- exactly when the new certificate works

  /** The enumeration finds every certificate of this device. */
  predicate Covers(order: seq<Cert>, store: map<Cert, string>) { forall d :: d in store ==> d in order }

  /** A renewal that completes leaves its certificate usable if and only if no other certificate in the
      store is bound to the same container, or that container could not be deleted: the sweep deletes
      containers by name. */
  lemma CompletedIsUsableIff(w: World, a: Attempt, who: Identity)
    requires Installs(w, a) && a.writes >= 4 && Covers(a.order, w.store)
    ensures Usable(Apply(w, Effects(w, Windows, a, who)), Issued(a))
            <==> NameIn(w, who) in a.keyStuck || forall d :: d in w.store ==> w.store[d] != NameIn(w, who)
  {
    var v, u := InstalledState(w, a, who);
    hide Apply, Effects;
    var name, c := NameIn(w, who), Issued(a);
    assert PREFIX <= name;
    hide NameIn;
    assert !SweptCert(w.store, c, a.order, a, c);
    assert u.store[c] == name && c in u.store;
    assert Usable(u, c) <==> !SweptKey(w.store, c, a.order, a, name);
  }

  /** A renewal whose files could not be written, after the store has the new certificate, leaves the
      device with a usable certificate if and only if the discard failed too, or the sweep could delete
      neither an old usable certificate nor its container. */
  lemma DiskFailureStrandsUnless(w: World, a: Attempt, who: Identity)
    requires Installs(w, a) && a.writes < 4 && Covers(a.order, w.store)
    requires forall d :: d in w.store ==> w.store[d] != NameIn(w, who)
    ensures Works(Apply(w, Effects(w, Windows, a, who)))
            <==> !a.discardOk
                 || exists d :: d in w.store && Usable(w, d) && d in a.certStuck && !DeletesKey(w.store[d], a)
  {
    var v, u := InstalledState(w, a, who);
    hide Apply, Effects;
    var name, c := NameIn(w, who), Issued(a);
    hide NameIn;
    assert !SweptKey(w.store, c, a.order, a, name);
    assert !SweptCert(w.store, c, a.order, a, c) && c in u.store && u.store[c] == name;
    assert Usable(u, c) <==> !a.discardOk;
    forall d | d in w.store
      ensures Usable(u, d) <==> Usable(w, d) && d in a.certStuck && !DeletesKey(w.store[d], a)
    {
      OldSurvives(w, a, name, v, u, d);
    }
  }

  lemma OldSurvives(w: World, a: Attempt, name: string, v: World, u: World, d: Cert)
    requires a.reply.Some? && Issued(a) !in w.store && d in w.store && Covers(a.order, w.store) && w.store[d] != name
    requires Swept(Bound(w, a, name), v, w.store, Issued(a), a.order, a)
    requires u.store == v.store && (u.containers == v.containers || u.containers == v.containers - {name})
    ensures Usable(u, d) <==> Usable(w, d) && d in a.certStuck && !DeletesKey(w.store[d], a)
  {
    var n := w.store[d];
    assert SweptCert(w.store, Issued(a), a.order, a, d) <==> d !in a.certStuck;
    assert SweptKey(w.store, Issued(a), a.order, a, n) <==> DeletesKey(n, a);
  }

  // ---------------------------------------------------------------- every cut of a renewal that completes

  /** The CA issued this serial for the first time, and no container was named after it. */
  predicate Fresh(w: World, who: Identity, serial: string) {
    && '\0' !in serial && '\0' !in Predecessor(w) && serial != Predecessor(w)
    && forall d :: d in w.store ==> d.serial != serial && w.store[d] != KeyContainerName(who.digest, who.device, serial)
  }

  lemma {:induction false} SweepSpares(store: map<Cert, string>, keep: Cert, order: seq<Cert>, a: Attempt, name: string)
    requires forall d :: d in store ==> store[d] != name
    ensures AllSpare(Sweep(store, keep, order, a), keep, name)
  {
    if order != [] {
      SweepSpares(store, keep, order[..|order| - 1], a, name);
    }
  }

  /** Up to the third effect the old certificate works. */
  lemma OldWorks(w: World, a: Attempt, who: Identity, n: nat)
    requires a.reply.Some? && Issued(a) !in w.store && Settled(w, who) && w.cert.Holds? && n < 3
    ensures Works(Apply(w, Head(a, NameIn(w, who))[..n]))
  {
    var live := w.cert.value;
    hide NameIn, Apply;
    SparedStaysUsable(w, Head(a, NameIn(w, who))[..n], live, w.store[live]);
  }

  /** From it on the new one does. */
  lemma NewIsUsable(w: World, a: Attempt, name: string, es: seq<Effect>, n: nat)
    requires a.reply.Some? && AllSpare(es, Issued(a), name) && n <= |es|
    ensures Usable(Apply(w, Head(a, name) + es[..n]), Issued(a))
  {
    HeadIs(w, a, name);
    hide Apply, Head;
    ApplyConcat(w, Head(a, name), es[..n]);
    SparedStaysUsable(Bound(w, a, name), es[..n], Issued(a), name);
  }

  lemma RestSpares(w: World, a: Attempt, who: Identity, name: string)
    requires a.reply.Some? && a.writes >= 4 && Settled(w, who) && name == NameIn(w, who)
    ensures AllSpare(Sweep(w.store, Issued(a), a.order, a) + Tail(a, name), Issued(a), name)
  {
    hide NameIn;
    SweepSpares(w.store, Issued(a), a.order, a, name);
  }

  lemma CutStillWorks(w: World, a: Attempt, who: Identity, n: nat)
    requires Installs(w, a) && a.writes >= 4 && Settled(w, who) && n <= |Effects(w, Windows, a, who)|
    requires w.cert.Holds? || n >= 3
    ensures Works(Apply(w, Effects(w, Windows, a, who)[..n]))
  {
    hide Effects, NameIn, Sweep, Tail, Apply, Works, Settled, AllSpare, Renews, Installed;
    var name, c, es := NameIn(w, who), Issued(a), Effects(w, Windows, a, who);
    EffectsAre(w, a, who);
    RestSpares(w, a, who, name);
    var rest := Sweep(w.store, c, a.order, a) + Tail(a, name);
    assert es == Head(a, name) + rest;
    if n < 3 {
      assert es[..n] == Head(a, name)[..n];
      OldWorks(w, a, who, n);
    } else {
      CutOf(Head(a, name), rest, n);
      NewIsUsable(w, a, name, rest, n - 3);
      assert Works(Apply(w, es[..n])) by { UsableWorks(Apply(w, es[..n]), c); }
    }
  }

  lemma UsableWorks(w: World, c: Cert)
    requires Usable(w, c)
    ensures Works(w)
  {
  }

  lemma CutOf(a: seq<Effect>, b: seq<Effect>, n: nat)
    requires |a| <= n <= |a + b|
    ensures (a + b)[..n] == a + b[..n - |a|]
  {
  }

  lemma CompletedIsSettled(w: World, a: Attempt, who: Identity)
    requires Installs(w, a) && a.writes >= 4 && Settled(w, who) && Injective(who.digest) &&
             Fresh(w, who, Issued(a).serial)
    ensures Settled(Apply(w, Effects(w, Windows, a, who)), who)
  {
    var v, u := InstalledState(w, a, who);
    var name, c := NameIn(w, who), Issued(a);
    NamesDiffer(who.digest, who.device, Predecessor(w), who.device, c.serial);
    hide Apply, Effects, KeyContainerName;
    assert !SweptKey(w.store, c, a.order, a, name) && !SweptCert(w.store, c, a.order, a, c);
    assert NameIn(u, who) == KeyContainerName(who.digest, who.device, c.serial);
  }

  // ---------------------------------------------------------------- every run

  /** How an attempt may end: before the store, or complete. */
  predicate Clean(a: Attempt) { !Reached(a) || WindowsSaved(a) }

  /** Every serial this device has seen: of what it holds, and of what its containers are named after. */
  ghost predicate Named(w: World, who: Identity, used: set<string>) {
    && Predecessor(w) in used && (forall s :: s in used ==> '\0' !in s)
    && (forall d :: d in w.store ==> d.serial in used)
    && (forall d :: d in w.store && PREFIX <= w.store[d] ==>
          exists p :: p in used && w.store[d] == KeyContainerName(who.digest, who.device, p))
  }

  /** The serials seen by the time of attempt j. */
  function Used(used: set<string>, attempts: seq<Attempt>, j: nat): set<string>
    requires j <= |attempts|
  {
    if j == 0 then used
    else Used(used, attempts, j - 1) + if Reached(attempts[j - 1]) then {Issued(attempts[j - 1]).serial} else {}
  }

  /** The CA never issues a serial that has been seen. */
  predicate FreshReplies(used: set<string>, attempts: seq<Attempt>) {
    forall i :: 0 <= i < |attempts| && Reached(attempts[i]) ==>
      Issued(attempts[i]).serial !in Used(used, attempts, i) && '\0' !in Issued(attempts[i]).serial
  }

  /** A serial not seen before names no container there is. */
  lemma UnseenIsFresh(w: World, who: Identity, used: set<string>, serial: string)
    requires Named(w, who, used) && Injective(who.digest) && serial !in used && '\0' !in serial
    ensures Fresh(w, who, serial)
  {
    hide Injective, KeyContainerName;
    forall d | d in w.store ensures w.store[d] != KeyContainerName(who.digest, who.device, serial) {
      NameHasPrefix(who, serial);
      if PREFIX <= w.store[d] {
        var p :| p in used && w.store[d] == KeyContainerName(who.digest, who.device, p);
        NamesDiffer(who.digest, who.device, p, who.device, serial);
      }
    }
  }

  lemma NameHasPrefix(who: Identity, serial: string)
    ensures PREFIX <= KeyContainerName(who.digest, who.device, serial)
  {
  }

  lemma CompletedKeepsNamed(w: World, a: Attempt, who: Identity, used: set<string>)
    requires Installs(w, a) && a.writes >= 4 && Named(w, who, used) && '\0' !in Issued(a).serial
    ensures Named(Apply(w, Effects(w, Windows, a, who)), who, used + {Issued(a).serial})
  {
    var v, u := InstalledState(w, a, who);
    hide Apply, Effects, KeyContainerName, SweptCert, SweptKey;
    var name, c, more := NameIn(w, who), Issued(a), used + {Issued(a).serial};
    forall d | d in u.store && PREFIX <= u.store[d]
      ensures exists p :: p in more && u.store[d] == KeyContainerName(who.digest, who.device, p)
    {
      if d == c {
        assert u.store[d] == KeyContainerName(who.digest, who.device, Predecessor(w));
      } else {
        var p :| p in used && w.store[d] == KeyContainerName(who.digest, who.device, p);
        assert p in more;
      }
    }
  }

  lemma CleanKeepsSettled(w: World, a: Attempt, who: Identity, used: set<string>, more: set<string>)
    requires Settled(w, who) && Injective(who.digest) && Clean(a) && Named(w, who, used)
    requires Reached(a) ==> Issued(a).serial !in used && '\0' !in Issued(a).serial
    requires more == used + if Reached(a) then {Issued(a).serial} else {}
    ensures var u := Apply(w, Effects(w, Windows, a, who)); Settled(u, who) && Named(u, who, more)
  {
    hide Settled, Injective, Named, NameIn;
    var es := Effects(w, Windows, a, who);
    if !Renews(w, a.now) {
      NoneLeaves(w);
      NamedGrows(w, who, used, more);
    } else if Reached(a) {
      UnseenIsFresh(w, who, used, Issued(a).serial);
      CompletedIsSettled(w, a, who);
      CompletedKeepsNamed(w, a, who, used);
    } else {
      assert es[..|es|] == es && more == used;
      FailureTouchesOneContainer(w, a, who, |es|);
      hide Effects, Apply;
      SameButKeepsSettled(w, Apply(w, es), who);
      SameStoreIsNamed(w, Apply(w, es), who, used);
    }
  }

  lemma NamedGrows(w: World, who: Identity, used: set<string>, more: set<string>)
    requires Named(w, who, used) && used <= more && forall s :: s in more - used ==> '\0' !in s
    ensures Named(w, who, more)
  {
    hide KeyContainerName;
  }

  lemma SameStoreIsNamed(w: World, u: World, who: Identity, used: set<string>)
    requires Named(w, who, used) && u.store == w.store && u.cert == w.cert
    ensures Named(u, who, used)
  {
    hide KeyContainerName;
  }

  lemma CleanCutWorks(w: World, a: Attempt, who: Identity, n: nat)
    requires Settled(w, who) && w.cert.Holds? && Clean(a) && n <= |Effects(w, Windows, a, who)|
    requires Reached(a) ==> Issued(a) !in w.store
    ensures Works(Apply(w, Effects(w, Windows, a, who)[..n]))
  {
    var es := Effects(w, Windows, a, who);
    if Renews(w, a.now) && Reached(a) {
      CutStillWorks(w, a, who, n);
    } else if Renews(w, a.now) {
      FailureTouchesOneContainer(w, a, who, n);
      hide Effects, NameIn, Apply;
      SameButKeepsSettled(w, Apply(w, es[..n]), who);
      assert Usable(w, w.cert.value);
    } else {
      assert es[..n] == [] && Usable(w, w.cert.value);
    }
  }

  lemma {:induction false} RunKeepsSettled(ws: seq<World>, attempts: seq<Attempt>, who: Identity, used: set<string>,
      j: nat)
    requires Run(ws, Windows, attempts, who) && j < |ws| && Settled(ws[0], who) && Injective(who.digest)
    requires Named(ws[0], who, used) && FreshReplies(used, attempts)
    requires forall i :: 0 <= i < |attempts| ==> Clean(attempts[i])
    ensures Settled(ws[j], who) && Named(ws[j], who, Used(used, attempts, j))
  {
    hide Settled, Clean, Effects, Apply, Injective, Named, Reached;
    if j > 0 {
      RunKeepsSettled(ws, attempts, who, used, j - 1);
      CleanKeepsSettled(ws[j - 1], attempts[j - 1], who, Used(used, attempts, j - 1), Used(used, attempts, j));
    }
  }

  /** Over any run of attempts that fail before the store or complete, with a CA that never repeats a
      serial and a digest that does not collide: disk and store agree after each, and a device that holds a
      certificate has a usable one at every cut of every attempt. */
  lemma NeverOffTheNetwork(ws: seq<World>, attempts: seq<Attempt>, who: Identity, used: set<string>, j: nat, n: nat)
    requires Run(ws, Windows, attempts, who) && j < |attempts| && Settled(ws[0], who) && Injective(who.digest)
    requires Named(ws[0], who, used) && FreshReplies(used, attempts)
    requires forall i :: 0 <= i < |attempts| ==> Clean(attempts[i])
    requires n <= |Effects(ws[j], Windows, attempts[j], who)|
    ensures Settled(ws[j], who)
    ensures ws[j].cert.Holds? ==> Works(Apply(ws[j], Effects(ws[j], Windows, attempts[j], who)[..n]))
  {
    hide Settled, Clean, Effects, Apply, Injective, Works;
    RunKeepsSettled(ws, attempts, who, used, j);
    if ws[j].cert.Holds? {
      CleanCutWorks(ws[j], attempts[j], who, n);
    }
  }

  // ---------------------------------------------------------------- the two ways off the network

  /** A chain that could not be installed leaves its certificate bound to the renewal's container, which
      is gone if the discard worked. */
  lemma ChainFailureLeaves(w: World, a: Attempt, who: Identity) returns (u: World)
    requires Renews(w, a.now) && Reached(a) && a.parses && a.addOk && a.bindOk && !a.chainOk
    ensures u == Apply(w, Effects(w, Windows, a, who))
    ensures u.cert == w.cert && u.store == w.store[Issued(a) := NameIn(w, who)]
    ensures u.containers == if a.discardOk then w.containers - {NameIn(w, who)}
                            else w.containers[NameIn(w, who) := a.pair]
  {
    var name := NameIn(w, who);
    hide NameIn;
    var rest := if a.discardOk then [DeleteKey(name)] else [];
    assert Effects(w, Windows, a, who) == Head(a, name) + rest;
    HeadIs(w, a, name);
    hide Apply, Effects, Head;
    ApplyConcat(w, Head(a, name), rest);
    ApplyOne(Bound(w, a, name), DeleteKey(name));
    NoneLeaves(Bound(w, a, name));
    u := Apply(Bound(w, a, name), rest);
  }

  /** So after one renewal fails at its chain and is discarded, the next one that completes and sweeps
      cleanly deletes its own key: the device holds one certificate, and nothing to use it with. */
  lemma ChainFailureThenSuccessStrands(w: World, a: Attempt, b: Attempt, who: Identity) returns (u: World, v: World)
    requires Renews(w, a.now) && Reached(a) && a.parses && a.addOk && a.bindOk && !a.chainOk && a.discardOk
    requires Renews(w, b.now) && Reached(b) && WindowsSaved(b) && Issued(b) !in w.store && Issued(b) != Issued(a)
    requires b.certStuck == {} && b.keyStuck == {} && Issued(a) in b.order && Covers(b.order, w.store)
    ensures u == Apply(w, Effects(w, Windows, a, who)) && v == Apply(u, Effects(u, Windows, b, who))
    ensures v.cert == Holds(Issued(b)) && !Works(v)
  {
    u := ChainFailureLeaves(w, a, who);
    var name, c := NameIn(w, who), Issued(b);
    assert NameIn(u, who) == name;
    CompletedIsUsableIff(u, b, who);
    var x, y := InstalledState(u, b, who);
    v := y;
    hide NameIn, Apply, Effects;
    assert u.store[Issued(a)] == name;
    forall d | d in v.store ensures d == c {
      assert SweptCert(u.store, c, b.order, b, d) || d == c;
    }
  }

  /** The sweep done and the files not yet written: the store has the new certificate alone, the disk
      the old one. */
  lemma CrashBeforeFiles(w: World, a: Attempt, who: Identity) returns (u: World)
    requires Installs(w, a) && a.certStuck == {} && Covers(a.order, w.store)
    ensures var name := NameIn(w, who);
            && u == Apply(w, Head(a, name) + Sweep(w.store, Issued(a), a.order, a))
            && u.cert == w.cert && u.store == map[Issued(a) := name]
  {
    hide NameIn, Sweep, Apply, Head;
    var name, c := NameIn(w, who), Issued(a);
    HeadIs(w, a, name);
    SweepIs(Bound(w, a, name), w.store, c, a.order, a);
    ApplyConcat(w, Head(a, name), Sweep(w.store, c, a.order, a));
    u := Apply(Bound(w, a, name), Sweep(w.store, c, a.order, a));
    forall d ensures d in u.store <==> d == c {
      assert d in Bound(w, a, name).store <==> d in w.store || d == c;
      assert SweptCert(w.store, c, a.order, a, d) <==> d in w.store && d != c;
    }
  }

  /** That state, from a device in order: the new certificate is usable, and the container the next
      attempt will name is the very one it is bound to. */
  lemma CrashedIsUsable(w: World, a: Attempt, who: Identity) returns (u: World)
    requires Installs(w, a) && a.certStuck == {} && Covers(a.order, w.store) && Settled(w, who)
    ensures u == Apply(w, Head(a, NameIn(w, who)) + Sweep(w.store, Issued(a), a.order, a))
    ensures u.cert == w.cert && u.store == map[Issued(a) := NameIn(w, who)] && NameIn(u, who) == NameIn(w, who)
    ensures Usable(u, Issued(a)) && forall n :: n in u.containers ==> n == NameIn(w, who) || n in w.containers
  {
    var name, c := NameIn(w, who), Issued(a);
    u := CrashBeforeFiles(w, a, who);
    HeadIs(w, a, name);
    ApplyConcat(w, Head(a, name), Sweep(w.store, c, a.order, a));
    SweepIs(Bound(w, a, name), w.store, c, a.order, a);
    assert NameIn(u, who) == name;
    hide NameIn, Apply, Sweep, Head;
    assert !SweptKey(w.store, c, a.order, a, name);
  }

  /** After a crash right there, the next attempt that fails before the store leaves the device a usable
      certificate if and only if it renews nothing or makes no key. */
  lemma CrashThenFailureIff(w: World, a: Attempt, b: Attempt, who: Identity) returns (u: World, v: World)
    requires Installs(w, a) && a.certStuck == {} && Covers(a.order, w.store) && Settled(w, who)
    requires !Reached(b) && b.pair != a.pair
    ensures u == Apply(w, Head(a, NameIn(w, who)) + Sweep(w.store, Issued(a), a.order, a))
    ensures v == Apply(u, Effects(u, Windows, b, who))
    ensures Works(v) <==> !Renews(w, b.now) || b.made == NoKey
  {
    u := CrashedIsUsable(w, a, who);
    var es, c := Effects(u, Windows, b, who), Issued(a);
    v := Apply(u, es);
    FailedAttemptSparesIff(u, b, who, c);
    FailureTouchesOneContainer(u, b, who, |es|);
    assert es[..|es|] == es;
    hide Effects, Apply, NameIn, Head, Sweep;
    assert forall d :: d in v.store <==> d == c;
  }

  /** The sweep of b leaves the container it shares with the certificate c that it replaces. */
  predicate SweepMisses(b: Attempt, c: Cert, name: string) { c !in b.order || name in b.keyStuck }

  /** In such a store, an attempt that installs leaves the device a usable certificate if and only if its
      sweep misses the container, and either its files are written or the discard fails. */
  lemma SharedInstallIff(u: World, b: Attempt, who: Identity, c: Cert) returns (v: World)
    requires u.store == map[c := NameIn(u, who)] && Installs(u, b)
    ensures v == Apply(u, Effects(u, Windows, b, who))
    ensures Works(v) <==> SweepMisses(b, c, NameIn(u, who)) && (b.writes >= 4 || !b.discardOk)
  {
    var name, d := NameIn(u, who), Issued(b);
    NameHasPrefix(who, Predecessor(u));
    assert PREFIX <= name;
    hide Effects, Apply, NameIn;
    var x, y := InstalledState(u, b, who);
    v := y;
    assert u.store[c] == name && !SweptCert(u.store, d, b.order, b, d) && d in v.store;
    assert forall f :: f in v.store ==> v.store[f] == name;
    assert SweptKey(u.store, d, b.order, b, name) <==> !SweepMisses(b, c, name);
    assert Usable(v, d) <==> name in v.containers;
  }

  /** What an attempt that fails before it has bound its certificate does. */
  function Unbound(b: Attempt, name: string): seq<Effect>
    requires b.reply.Some?
  {
    [CreateKey(name, b.pair)]
    + (if b.parses && b.addOk then [AddCert(Issued(b))] else [])
    + if b.discardOk then [DeleteKey(name)] else []
  }

  lemma UnboundEffects(u: World, b: Attempt, who: Identity)
    requires Renews(u, b.now) && Reached(b) && !(b.parses && b.addOk && b.bindOk)
    ensures Effects(u, Windows, b, who) == Unbound(b, NameIn(u, who))
  {
    hide NameIn, Renews, Sweep;
  }

  lemma UnboundIs(u: World, b: Attempt, name: string)
    requires b.reply.Some?
    ensures var v := Apply(u, Unbound(b, name));
            && v.store == (if b.parses && b.addOk then u.store[Issued(b) := ""] else u.store)
            && v.containers == if b.discardOk then u.containers - {name} else u.containers[name := b.pair]
  {
    hide Apply;
    var add := if b.parses && b.addOk then [AddCert(Issued(b))] else [];
    var drop := if b.discardOk then [DeleteKey(name)] else [];
    ApplyConcat(u, [CreateKey(name, b.pair)] + add, drop);
    ApplyConcat(u, [CreateKey(name, b.pair)], add);
    ApplyOne(u, CreateKey(name, b.pair));
    var u1 := Step(u, CreateKey(name, b.pair));
    ApplyOne(u1, AddCert(Issued(b)));
    NoneLeaves(u1);
    var u2 := Apply(u1, add);
    ApplyOne(u2, DeleteKey(name));
    NoneLeaves(u2);
  }

  /** One that fails before it has bound its certificate leaves none. */
  lemma SharedUnboundStrands(u: World, b: Attempt, who: Identity, c: Cert) returns (v: World)
    requires u.store == map[c := NameIn(u, who)] && "" !in u.containers && b.pair != c.pair
    requires Renews(u, b.now) && Reached(b) && !(b.parses && b.addOk && b.bindOk)
    ensures v == Apply(u, Effects(u, Windows, b, who)) && !Works(v)
  {
    hide NameIn, Apply, Works, Effects, Unbound, Renews;
    var name := NameIn(u, who);
    NameInHasPrefix(u, who);
    UnboundEffects(u, b, who);
    UnboundIs(u, b, name);
    v := Apply(u, Unbound(b, name));
    UnboundIsUnusable(v, c, Issued(b), name, b.pair);
  }

  lemma NameInHasPrefix(w: World, who: Identity)
    ensures PREFIX <= NameIn(w, who) && NameIn(w, who) != ""
  {
    NameHasPrefix(who, Predecessor(w));
  }

  lemma UnboundIsUnusable(v: World, c: Cert, d: Cert, name: string, pair: nat)
    requires v.store == map[c := name] || v.store == map[c := name][d := ""]
    requires "" !in v.containers && pair != c.pair && (name in v.containers ==> v.containers[name] == pair)
    ensures !Works(v)
  {
  }

  /** Whatever the next attempt is, it leaves the device a usable certificate if and only if it renews
      nothing or makes no key, or it reaches the store, binds its certificate, is saved or fails to discard
      its key, and is either stopped by its chain or has a sweep that misses the container it shares with
      the certificate it replaces. */
  lemma CrashThenAttemptIff(w: World, a: Attempt, b: Attempt, who: Identity) returns (u: World, v: World)
    requires Installs(w, a) && a.certStuck == {} && Covers(a.order, w.store) && Settled(w, who)
    requires b.pair != a.pair && "" !in w.containers
    ensures u == Apply(w, Head(a, NameIn(w, who)) + Sweep(w.store, Issued(a), a.order, a))
    ensures v == Apply(u, Effects(u, Windows, b, who))
    ensures Works(v) <==>
            || !Renews(w, b.now) || b.made == NoKey
            || (&& Reached(b) && b.parses && b.addOk && b.bindOk && (WindowsSaved(b) || !b.discardOk)
                && (!b.chainOk || SweepMisses(b, Issued(a), NameIn(w, who))))
  {
    hide Effects, Apply, NameIn, Head, Sweep, Settled, Works, SweepMisses;
    u := CrashedIsUsable(w, a, who);
    NameInHasPrefix(w, who);
    var c := Issued(a);
    if !Reached(b) {
      u, v := CrashThenFailureIff(w, a, b, who);
    } else if !Renews(w, b.now) {
      assert Effects(u, Windows, b, who) == [] by { NotDueDoesNothing(u, b, who); }
      NoneLeaves(u);
      v := u;
      UsableWorks(u, c);
    } else if !(b.parses && b.addOk && b.bindOk) {
      v := SharedUnboundStrands(u, b, who, c);
    } else if b.chainOk {
      v := SharedInstallIff(u, b, who, c);
    } else {
      v := ChainFailureLeaves(u, b, who);
      ChainFailedWorksIff(u, b, who, c, v);
    }
  }

  lemma NotDueDoesNothing(w: World, a: Attempt, who: Identity)
    requires !Renews(w, a.now)
    ensures Effects(w, Windows, a, who) == []
  {
  }

  lemma ChainFailedWorksIff(u: World, b: Attempt, who: Identity, c: Cert, v: World)
    requires b.reply.Some? && u.store == map[c := NameIn(u, who)] && v.store == u.store[Issued(b) := NameIn(u, who)]
    requires v.containers == if b.discardOk then u.containers - {NameIn(u, who)}
                             else u.containers[NameIn(u, who) := b.pair]
    ensures Works(v) <==> !b.discardOk
  {
    hide NameIn;
    assert Usable(v, Issued(b)) <==> !b.discardOk;
    assert forall f :: f in v.store ==> v.store[f] == NameIn(u, who);
  }

  /** So one that succeeds, and whose sweep sees the certificate it replaces, leaves the device a usable
      certificate if and only if it fails to delete the container they share. */
  lemma CrashThenSuccessIff(w: World, a: Attempt, b: Attempt, who: Identity) returns (u: World, v: World)
    requires Installs(w, a) && a.certStuck == {} && Covers(a.order, w.store) && Settled(w, who)
    requires Renews(w, b.now) && Reached(b) && WindowsSaved(b) && Issued(b) != Issued(a) && Issued(a) in b.order
    ensures u == Apply(w, Head(a, NameIn(w, who)) + Sweep(w.store, Issued(a), a.order, a))
    ensures v == Apply(u, Effects(u, Windows, b, who))
    ensures Works(v) <==> NameIn(w, who) in b.keyStuck
  {
    hide Effects, Apply, NameIn, Head, Sweep, Settled, Works;
    u := CrashedIsUsable(w, a, who);
    v := SharedInstallIff(u, b, who, Issued(a));
  }

  // ---------------------------------------------------------------- what the order of effects is for

  /** Bound certificates are bound apart. */
  predicate BoundApart(store: map<Cert, string>) {
    forall c, d :: c in store && d in store && store[c] == store[d] != "" ==> c == d
  }

  /** No certificate is bound to a key that is not there, and no two to the same one. */
  predicate Sane(w: World) {
    (forall c :: c in w.store && w.store[c] != "" ==> Usable(w, c)) && BoundApart(w.store)
  }

  /** An effect that takes a key only from under nobody, and binds a certificate only to its own. */
  predicate Careful(w: World, e: Effect) {
    match e
    case CreateKey(name, _) => forall c :: c in w.store ==> w.store[c] != name
    case DeleteKey(name) => forall c :: c in w.store ==> w.store[c] != name
    case BindCert(c, name) =>
      name in w.containers && w.containers[name] == c.pair && forall d :: d in w.store ==> w.store[d] != name
    case _ => true
  }

  lemma CarefulKeepsSane(w: World, e: Effect)
    requires Sane(w) && Careful(w, e)
    ensures Sane(Step(w, e))
  {
  }

  /** Where the sweep has got to: what is left of the old certificates is bound as it was. */
  predicate Sweeping(w: World, store: map<Cert, string>, keep: Cert, name: string) {
    && Sane(w) && (forall d :: d in store ==> store[d] != name)
    && (forall d :: d in w.store && d != keep ==> d in store && w.store[d] == store[d])
    && keep in w.store && w.store[keep] == name
  }

  /** One superseded certificate goes before its container, so at no cut does it point at a key that is
      gone. */
  lemma SweepOneKeepsSane(w: World, store: map<Cert, string>, keep: Cert, name: string, c: Cert, a: Attempt, n: nat)
    requires Sweeping(w, store, keep, name) && a.certStuck == {} && n <= |SweepOne(store, keep, c, a)|
    requires BoundApart(store)
    ensures Sweeping(Apply(w, SweepOne(store, keep, c, a)[..n]), store, keep, name)
  {
    var es := SweepOne(store, keep, c, a);
    if n > 0 {
      assert es[..1] == [RemoveCert(c)];
      ApplyOne(w, RemoveCert(c));
      var v := Step(w, RemoveCert(c));
      CarefulKeepsSane(w, RemoveCert(c));
      if n == 2 {
        assert es[..2] == [RemoveCert(c)] + [DeleteKey(store[c])];
        ApplyConcat(w, [RemoveCert(c)], [DeleteKey(store[c])]);
        ApplyOne(v, DeleteKey(store[c]));
        CarefulKeepsSane(v, DeleteKey(store[c]));
      }
    }
  }

  lemma {:induction false} SweepKeepsSane(w: World, store: map<Cert, string>, keep: Cert, name: string,
      order: seq<Cert>, a: Attempt, n: nat)
    requires Sweeping(w, store, keep, name) && BoundApart(store) && a.certStuck == {} &&
             n <= |Sweep(store, keep, order, a)|
    ensures Sweeping(Apply(w, Sweep(store, keep, order, a)[..n]), store, keep, name)
  {
    hide Sweeping, Apply, SweepOne;
    if order != [] {
      var front, c := order[..|order| - 1], order[|order| - 1];
      var s, one := Sweep(store, keep, front, a), SweepOne(store, keep, c, a);
      if n <= |s| {
        assert (s + one)[..n] == s[..n];
        SweepKeepsSane(w, store, keep, name, front, a, n);
      } else {
        CutOf(s, one, n);
        assert s[..|s|] == s;
        SweepKeepsSane(w, store, keep, name, front, a, |s|);
        ApplyConcat(w, s, one[..n - |s|]);
        SweepOneKeepsSane(Apply(w, s), store, keep, name, c, a, n - |s|);
      }
    } else {
      NoneLeaves(w);
    }
  }

  lemma {:induction false} FilesKeepSane(w: World, es: seq<Effect>)
    requires Sane(w) && forall i :: 0 <= i < |es| ==> OnFiles(es[i])
    ensures Sane(Apply(w, es))
  {
    hide Sane;
    if es == [] {
      NoneLeaves(w);
    } else {
      FilesKeepSane(w, es[..|es| - 1]);
      CarefulKeepsSane(Apply(w, es[..|es| - 1]), es[|es| - 1]);
    }
  }

  lemma HeadKeepsSane(w: World, a: Attempt, name: string, n: nat)
    requires Sane(w) && a.reply.Some? && Issued(a) !in w.store && n <= 3 && name != ""
    requires forall c :: c in w.store ==> w.store[c] != name
    ensures Sane(Apply(w, Head(a, name)[..n]))
  {
    hide Apply, Head, Sane;
    var e0, e1, e2 := CreateKey(name, a.pair), AddCert(Issued(a)), BindCert(Issued(a), name);
    HeadCuts(w, a, name);
    CarefulKeepsSane(w, e0);
    CarefulKeepsSane(Step(w, e0), e1);
    CarefulKeepsSane(Step(Step(w, e0), e1), e2);
  }

  lemma HeadCuts(w: World, a: Attempt, name: string)
    requires a.reply.Some?
    ensures var h := Head(a, name); var w1 := Step(w, CreateKey(name, a.pair)); var w2 := Step(w1, AddCert(Issued(a)));
            && Apply(w, h[..0]) == w && Apply(w, h[..1]) == w1 && Apply(w, h[..2]) == w2
            && Apply(w, h[..3]) == Step(w2, BindCert(Issued(a), name))
  {
    var h := Head(a, name);
    assert h[..3][..2] == h[..2] && h[..2][..1] == h[..1] && h[..1][..0] == h[..0];
    hide Step;
  }

  /** A renewal that completes never leaves, at any cut, a certificate in the store bound to a key that
      is gone: keys are created before they are bound, and certificates removed before their keys. */
  lemma NothingDangles(w: World, a: Attempt, who: Identity, n: nat)
    requires Installs(w, a) && a.writes >= 4 && a.certStuck == {} && Settled(w, who) && Sane(w)
    requires n <= |Effects(w, Windows, a, who)|
    ensures Sane(Apply(w, Effects(w, Windows, a, who)[..n]))
  {
    hide NameIn, Effects, Sweep, Tail, Apply, Renews, Installed, Settled, Bound, Sane, Sweeping;
    var name, c := NameIn(w, who), Issued(a);
    var h, s, t := Head(a, name), Sweep(w.store, c, a.order, a), Tail(a, name);
    EffectsAre(w, a, who);
    BoundIsSweeping(w, a, who, name, h);
    TailIsFiles(a, name, t);
    if n <= 3 {
      assert (h + s + t)[..n] == h[..n];
      HeadCutIsSane(w, a, who, name, n);
    } else {
      RestCutIsSane(w, a, name, h, s, t, n);
    }
  }

  lemma HeadCutIsSane(w: World, a: Attempt, who: Identity, name: string, n: nat)
    requires Installs(w, a) && Settled(w, who) && Sane(w) && name == NameIn(w, who) && n <= 3
    ensures Sane(Apply(w, Head(a, name)[..n]))
  {
    hide Apply, Head, Sane;
    HeadKeepsSane(w, a, name, n);
  }

  lemma BoundIsSweeping(w: World, a: Attempt, who: Identity, name: string, h: seq<Effect>)
    requires Installs(w, a) && Settled(w, who) && Sane(w) && name == NameIn(w, who) && h == Head(a, name)
    ensures Sweeping(Apply(w, h), w.store, Issued(a), name) && BoundApart(w.store)
  {
    HeadIs(w, a, name);
    HeadCutIsSane(w, a, who, name, 3);
    assert h[..3] == h;
    hide Apply, Head;
  }

  lemma TailIsFiles(a: Attempt, name: string, t: seq<Effect>)
    requires a.reply.Some? && a.writes >= 4 && t == Tail(a, name)
    ensures forall i :: 0 <= i < |t| ==> OnFiles(t[i])
  {
  }

  lemma RestCutIsSane(w: World, a: Attempt, name: string, h: seq<Effect>, s: seq<Effect>, t: seq<Effect>, n: nat)
    requires a.reply.Some? && a.certStuck == {} && s == Sweep(w.store, Issued(a), a.order, a)
    requires Sweeping(Apply(w, h), w.store, Issued(a), name) && BoundApart(w.store)
    requires (forall i :: 0 <= i < |t| ==> OnFiles(t[i])) && |h| < n <= |h + s + t|
    ensures Sane(Apply(w, (h + s + t)[..n]))
  {
    hide Apply, Sweep, Sane, BoundApart;
    var v := Apply(w, h);
    if n <= |h| + |s| {
      assert (h + s + t)[..n] == (h + s)[..n];
      CutOf(h, s, n);
      ApplyConcat(w, h, s[..n - |h|]);
      SweepKeepsSane(v, w.store, Issued(a), name, a.order, a, n - |h|);
    } else {
      var m := n - |h| - |s|;
      CutOf(h + s, t, n);
      ApplyConcat(w, h + s, t[..m]);
      ApplyConcat(w, h, s);
      assert s[..|s|] == s;
      SweepKeepsSane(v, w.store, Issued(a), name, a.order, a, |s|);
      FilesKeepSane(Apply(v, s), t[..m]);
    }
  }

  /** The store comes first: the new certificate is on disk only once it is usable. */
  lemma OnDiskOnlyIfUsable(w: World, a: Attempt, who: Identity, n: nat)
    requires Installs(w, a) && a.writes >= 4 && Settled(w, who) && w.cert != Holds(Issued(a))
    requires n <= |Effects(w, Windows, a, who)|
    ensures var u := Apply(w, Effects(w, Windows, a, who)[..n]); u.cert == Holds(Issued(a)) ==> Usable(u, Issued(a))
  {
    hide Effects, NameIn, Sweep, Tail, Apply, Settled, AllSpare, Renews, Installed, Usable;
    var name, es := NameIn(w, who), Effects(w, Windows, a, who);
    EffectsAre(w, a, who);
    RestSpares(w, a, who, name);
    var rest := Sweep(w.store, Issued(a), a.order, a) + Tail(a, name);
    assert es == Head(a, name) + rest;
    if n < 3 {
      assert es[..n] == Head(a, name)[..n];
      HeadLeavesFiles(w, a, name, n);
    } else {
      CutOf(Head(a, name), rest, n);
      NewIsUsable(w, a, name, rest, n - 3);
    }
  }

  lemma HeadLeavesFiles(w: World, a: Attempt, name: string, n: nat)
    requires a.reply.Some? && n < 3
    ensures Apply(w, Head(a, name)[..n]).cert == w.cert
  {
    var h := Head(a, name);
    assert h[..2][..1] == h[..1] && h[..1][..0] == h[..0];
    NoneLeaves(w);
  }

  // ---------------------------------------------------------------- what ensure reports

  /** What ensure returns is what the disk holds afterwards: the new certificate after a renewal, the old
      one after a request that failed or when none was due; and one it keeps is valid, with more than
      half its life ahead. */
  lemma AnswerIsTrue(w: World, p: Platform, a: Attempt, who: Identity)
    requires a.reply.Some? ==> Issued(a) !in w.store
    ensures var u := Apply(w, Effects(w, p, a, who));
            match AnswerOf(w, p, a)
            case Current(c) =>
              && u == w && w.cert == Holds(c)
              && c.notBefore <= a.now && 2 * (a.now - c.notBefore) < c.notAfter - c.notBefore
            case Renewed(c) =>
              && u.cert == Holds(c) && u.chain == Holds(c.ca) && (p == Unix ==> Matched(u))
              && (p == Windows ==> u.key == if a.unlinkOk then Missing else w.key)
            case FailedHolding(was) => u.cert == w.cert && was == (if w.cert.Holds? then Some(w.cert.value) else None)
            case Failed => true
  {
    var es := Effects(w, p, a, who);
    if !Renews(w, a.now) {
      NoneLeaves(w);
    } else if AnswerOf(w, p, a).FailedHolding? {
      assert es[..|es|] == es;
      if p == Windows {
        FailureTouchesOneContainer(w, a, who, |es|);
      } else {
        NoneLeaves(w);
      }
    } else if AnswerOf(w, p, a).Renewed? {
      RenewedIsOnDisk(w, p, a, who);
    }
  }

  /** When it answers what: a certificate with more than half its life ahead is kept, one that cannot be read
      fails, and otherwise a new one is the answer exactly when key, request and save all work; a request
      that failed is told apart from the rest. */
  lemma AnswerIff(w: World, p: Platform, a: Attempt)
    ensures var r := AnswerOf(w, p, a);
            var kept := w.cert.Holds? && var c := w.cert.value;
              c.notBefore <= a.now && 2 * (a.now - c.notBefore) + 1 < c.notAfter - c.notBefore;
            && (r.Current? <==> kept)
            && (r.Renewed? <==> !kept && !w.cert.Torn? && Reached(a) && Saved(p, a))
            && (r.FailedHolding? <==> !kept && !w.cert.Torn? && a.made == KeyMade && a.csrOk && a.reply.None?)
            && (r.Failed? <==> w.cert.Torn? ||
                               (!kept && (a.made != KeyMade || !a.csrOk || (a.reply.Some? && !Saved(p, a)))))
  {
  }

  lemma RenewedIsOnDisk(w: World, p: Platform, a: Attempt, who: Identity)
    requires Renews(w, a.now) && Reached(a) && Saved(p, a) && Issued(a) !in w.store
    ensures var u := Apply(w, Effects(w, p, a, who));
            && u.cert == Holds(Issued(a)) && u.chain == Holds(Issued(a).ca) && (p == Unix ==> Matched(u))
            && (p == Windows ==> u.key == if a.unlinkOk then Missing else w.key)
  {
    if p == Unix {
      var all := [TearKey, PutKey(a.pair)] + SaveFiles(Issued(a));
      assert Effects(w, Unix, a, who) == all == all[..6];
      SaveSteps(w, a, all);
    } else {
      var v, u := InstalledState(w, a, who);
    }
  }
}
