/**
 What renewal keeps over any cut and any run of attempts, and exactly where it does not.
 */
module NetCertRuns {
  import opened NetCert

  ghost predicate Run(ws: seq<World>, p: Platform, attempts: seq<Attempt>, who: Identity) {
    && |ws| == |attempts| + 1
    && forall i :: 0 <= i < |attempts| ==> ws[i + 1] == Apply(ws[i], Effects(ws[i], p, attempts[i], who))
  }

  // ---------------------------------------------------------------- Unix

  /** The key, the certificate for it and the chain that certifies it. */
  predicate Matched(w: World) {
    && w.key.Holds? && w.cert.Holds? && w.chain.Holds?
    && w.key.value == w.cert.value.pair && w.chain.value == w.cert.value.ca
  }

  /** Attempts that fail at key creation, at the CSR or at the request leave every file alone. */
  lemma {:induction false} UnixFailuresAreFree(ws: seq<World>, attempts: seq<Attempt>, who: Identity, j: nat)
    requires Run(ws, Unix, attempts, who) && j < |ws|
    requires forall i :: 0 <= i < j ==> !Reached(attempts[i])
    ensures ws[j] == ws[0]
  {
    if j > 0 {
      UnixFailuresAreFree(ws, attempts, who, j - 1);
      assert Effects(ws[j - 1], Unix, attempts[j - 1], who) == [];
    }
  }

  /** The files after each of save's first steps. */
  lemma SaveSteps(w: World, a: Attempt, es: seq<Effect>)
    requires a.reply.Some? && es == [TearKey, PutKey(a.pair)] + SaveFiles(Issued(a))
    ensures |es| == 6
    ensures Apply(w, es[..0]) == w && Apply(w, es[..1]) == w.(key := Torn)
    ensures Apply(w, es[..2]) == w.(key := Holds(a.pair))
    ensures Apply(w, es[..3]) == w.(key := Holds(a.pair), chain := Torn)
    ensures Apply(w, es[..4]) == w.(key := Holds(a.pair), chain := Holds(Issued(a).ca))
    ensures Apply(w, es[..5]) == w.(key := Holds(a.pair), chain := Holds(Issued(a).ca), cert := Torn)
    ensures Apply(w, es[..6]) == w.(key := Holds(a.pair), chain := Holds(Issued(a).ca), cert := Holds(Issued(a)))
  {
    assert es[..1][..0] == es[..0] && es[..2][..1] == es[..1] && es[..3][..2] == es[..2];
    assert es[..4][..3] == es[..3] && es[..5][..4] == es[..4] && es[..6][..5] == es[..5];
  }

  /** Cut anywhere, a save leaves a matched set if and only if it is cut before its first step or after
      its last: the key is replaced first, the certificate last. */
  lemma SaveCutIff(w: World, a: Attempt, n: nat)
    requires Matched(w) && a.reply.Some? && a.pair != w.key.value && n <= 6
    ensures Matched(Apply(w, ([TearKey, PutKey(a.pair)] + SaveFiles(Issued(a)))[..n])) <==> n == 0 || n == 6
  {
    hide Apply, SaveFiles;
    SaveSteps(w, a, [TearKey, PutKey(a.pair)] + SaveFiles(Issued(a)));
  }

  /** On a first issuance the order is what makes every cut safe: a certificate is there only with its
      key and its chain. */
  lemma FirstIssuanceCut(w: World, a: Attempt, n: nat)
    requires w.cert.Missing? && a.reply.Some? && n <= 6
    ensures var u := Apply(w, ([TearKey, PutKey(a.pair)] + SaveFiles(Issued(a)))[..n]); u.cert.Holds? ==> Matched(u)
  {
    hide Apply, SaveFiles;
    SaveSteps(w, a, [TearKey, PutKey(a.pair)] + SaveFiles(Issued(a)));
  }

  /** Whatever an attempt meets, the files are a matched set afterwards if and only if it never got to
      write, or wrote everything. */
  lemma UnixAttemptIff(w: World, a: Attempt, who: Identity)
    requires Matched(w) && a.pair != w.key.value && Renews(w, a.now)
    ensures Matched(Apply(w, Effects(w, Unix, a, who))) <==> !Reached(a) || a.writes == 0 || UnixSaved(a)
  {
    var es := Effects(w, Unix, a, who);
    if Reached(a) {
      var all := [TearKey, PutKey(a.pair)] + SaveFiles(Issued(a));
      SaveSteps(w, a, all);
      assert es == UnixSave(a);
      assert es == all[..|es|] && |es| <= 6;
      assert a.parses ==> |es| == if a.writes < 6 then a.writes else 6;
      assert !a.parses ==> |es| == if a.writes < 2 then a.writes else 2;
    }
  }

  /** A certificate file that does not parse ends renewal for good: every later attempt, on either
      platform, fails before it does anything. */
  lemma {:induction false} TornCertificateSticks(ws: seq<World>, p: Platform, attempts: seq<Attempt>, who: Identity,
      j: nat)
    requires Run(ws, p, attempts, who) && j < |ws| && ws[0].cert.Torn?
    ensures ws[j] == ws[0] && (j < |attempts| ==> AnswerOf(ws[j], p, attempts[j]) == Failed)
  {
    if j > 0 {
      TornCertificateSticks(ws, p, attempts, who, j - 1);
    }
  }

  // ---------------------------------------------------------------- Windows: what an effect leaves alone

  /** A certificate in the store whose container holds its key. */
  predicate Usable(w: World, c: Cert) {
    c in w.store && w.store[c] in w.containers && w.containers[w.store[c]] == c.pair
  }

  predicate Works(w: World) { exists c :: c in w.store && Usable(w, c) }

  predicate Spares(e: Effect, c: Cert, name: string) {
    match e
    case CreateKey(n, _) => n != name
    case DeleteKey(n) => n != name
    case AddCert(d) => d != c
    case BindCert(d, _) => d != c
    case RemoveCert(d) => d != c
    case _ => true
  }

  predicate AllSpare(es: seq<Effect>, c: Cert, name: string) {
    forall i :: 0 <= i < |es| ==> Spares(es[i], c, name)
  }

  lemma {:induction false} SparedStaysUsable(w: World, es: seq<Effect>, c: Cert, name: string)
    requires Usable(w, c) && w.store[c] == name && AllSpare(es, c, name)
    ensures Usable(Apply(w, es), c) && Apply(w, es).store[c] == name
  {
    if es != [] {
      SparedStaysUsable(w, es[..|es| - 1], c, name);
    }
  }

  /** Effects on the three files. */
  predicate OnFiles(e: Effect) {
    e.TearKey? || e.PutKey? || e.TearChain? || e.PutChain? || e.TearCert? || e.PutCert? || e.UnlinkKey?
  }

  lemma {:induction false} FilesLeaveTheStore(w: World, es: seq<Effect>)
    requires forall i :: 0 <= i < |es| ==> OnFiles(es[i])
    ensures Apply(w, es).store == w.store && Apply(w, es).containers == w.containers
  {
    if es != [] {
      FilesLeaveTheStore(w, es[..|es| - 1]);
    }
  }

  // ---------------------------------------------------------------- Windows: failures before the store

  /** Disk and store agree: the certificate on disk is in the store and usable, and nothing there is
      bound to the container the next renewal would use. Or there is nothing yet. */
  predicate Settled(w: World, who: Identity) {
    if w.cert.Holds? then Usable(w, w.cert.value) && forall c :: c in w.store ==> w.store[c] != NameIn(w, who)
    else w.cert.Missing? && w.store == map[]
  }

  /** The two differ in one container at most. */
  predicate SameBut(w: World, u: World, name: string) {
    && u.store == w.store && u.key == w.key && u.cert == w.cert && u.chain == w.chain
    && (forall n :: n in w.containers && n != name ==> n in u.containers && u.containers[n] == w.containers[n])
    && (forall n :: n in u.containers && n != name ==> n in w.containers)
  }

  /** However an attempt that fails before the store is cut, it has touched only its own container. */
  lemma FailureTouchesOneContainer(w: World, a: Attempt, who: Identity, n: nat)
    requires !Reached(a) && n <= |Effects(w, Windows, a, who)|
    ensures SameBut(w, Apply(w, Effects(w, Windows, a, who)[..n]), NameIn(w, who))
  {
    var name, es := NameIn(w, who), Effects(w, Windows, a, who);
    hide NameIn;
    assert |es| <= 2;
    if n > 0 {
      assert es[..1] == [CreateKey(name, a.pair)];
      ApplyOne(w, CreateKey(name, a.pair));
    }
    if n == 2 {
      assert es[..2] == es[..1] + [DeleteKey(name)];
      ApplyConcat(w, es[..1], [DeleteKey(name)]);
      ApplyOne(Apply(w, es[..1]), DeleteKey(name));
    }
  }

  /** An attempt that fails before the store spares a usable certificate if and only if it makes no key, or
      the certificate is bound to another container than the one it names: the discard does not help,
      because making the key has already replaced the one that was there. */
  lemma FailedAttemptSparesIff(w: World, a: Attempt, who: Identity, c: Cert)
    requires Usable(w, c) && !Reached(a) && a.pair != c.pair
    ensures Usable(Apply(w, Effects(w, Windows, a, who)), c)
            <==> !Renews(w, a.now) || a.made == NoKey || w.store[c] != NameIn(w, who)
  {
    var name, es := NameIn(w, who), Effects(w, Windows, a, who);
    hide NameIn, Renews;
    var w1 := Step(w, CreateKey(name, a.pair));
    NoneLeaves(w);
    ApplyOne(w, CreateKey(name, a.pair));
    ApplyConcat(w, [CreateKey(name, a.pair)], [DeleteKey(name)]);
    ApplyOne(w1, DeleteKey(name));
    assert es == [] || es == [CreateKey(name, a.pair)] || es == [CreateKey(name, a.pair)] + [DeleteKey(name)];
    assert es == [] <==> !Renews(w, a.now) || a.made == NoKey;
    hide Apply, Effects;
  }

  /** What an attempt that fails before the store does with its key: one that could be used is discarded, if
      the discard works, and one left half made stays. */
  lemma FailedKeyIs(w: World, a: Attempt, who: Identity)
    requires Renews(w, a.now) && !Reached(a)
    ensures var name := NameIn(w, who);
            Apply(w, Effects(w, Windows, a, who)).containers ==
            if a.made == NoKey then w.containers
            else if a.made == KeyMade && a.discardOk then w.containers - {name}
            else w.containers[name := a.pair]
  {
    var name, es := NameIn(w, who), Effects(w, Windows, a, who);
    hide NameIn, Renews, Apply;
    var w1 := Step(w, CreateKey(name, a.pair));
    NoneLeaves(w);
    ApplyOne(w, CreateKey(name, a.pair));
    ApplyConcat(w, [CreateKey(name, a.pair)], [DeleteKey(name)]);
    ApplyOne(w1, DeleteKey(name));
    assert w.containers[name := a.pair] - {name} == w.containers - {name};
    assert es == if a.made == NoKey then []
                 else if a.made == KeyMade && a.discardOk then [CreateKey(name, a.pair)] + [DeleteKey(name)]
                 else [CreateKey(name, a.pair)];
  }

  lemma NoneLeaves(w: World)
    ensures Apply(w, []) == w
  {
  }

  lemma SameButKeepsSettled(w: World, u: World, who: Identity)
    requires Settled(w, who) && SameBut(w, u, NameIn(w, who))
    ensures Settled(u, who) && NameIn(u, who) == NameIn(w, who)
    ensures forall c :: Usable(w, c) ==> Usable(u, c)
    ensures u.containers.Keys <= w.containers.Keys + {NameIn(w, who)}
  {
    hide KeyContainerName;
  }

  /** Over any run of attempts that fail at key creation, at the CSR or at the request, whatever becomes
      of their discards: the files and the store stay as they were, every certificate that was usable
      still is, and at most one container is left over. */
  lemma {:induction false} FailuresLeaveOneContainer(ws: seq<World>, attempts: seq<Attempt>, who: Identity, j: nat)
    requires Run(ws, Windows, attempts, who) && j < |ws| && Settled(ws[0], who)
    requires forall i :: 0 <= i < j ==> !Reached(attempts[i])
    ensures SameBut(ws[0], ws[j], NameIn(ws[0], who)) && Settled(ws[j], who)
    ensures forall c :: Usable(ws[0], c) ==> Usable(ws[j], c)
    ensures ws[j].containers.Keys <= ws[0].containers.Keys + {NameIn(ws[0], who)}
  {
    hide Effects, Reached, NameIn, Usable, Settled;
    if j > 0 {
      FailuresLeaveOneContainer(ws, attempts, who, j - 1);
      var w, es := ws[j - 1], Effects(ws[j - 1], Windows, attempts[j - 1], who);
      assert es[..|es|] == es;
      FailureTouchesOneContainer(w, attempts[j - 1], who, |es|);
      SameButKeepsSettled(ws[0], w, who);
      assert SameBut(ws[0], ws[j], NameIn(ws[0], who));
      SameButKeepsSettled(ws[0], ws[j], who);
    }
  }
}
