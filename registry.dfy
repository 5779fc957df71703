/**
 * The game-session registry of `RecursoPartida`
 * (src/servicios/RecursoPartida.java:32-186): a dictionary `partidaDB` from
 * integer ids to games and the counter `idCounter` that issues the ids.
 *
 * The game itself (`modelo.Partida`) is not part of this model. Its type is the
 * parameter `G`; the three game operations the resource delegates to are the
 * fields of an `Engine<G>`, and the outcome of `new Partida(...)` is passed in
 * (`None` when the constructor fails). A probe changes the game, so it yields
 * the game's new state, which is kept under the same id.
 *
 * The pure functions `CreateStep` ... `SolutionStep` are the specification of
 * one request each; `Run` replays a sequence of requests. The class `Registry`
 * holds the two fields and updates them in place as the Java handlers do.
 */
module PartidaRegistry {
  import opened Options
  import opened SolutionEncoding

  /** The operations of the game engine that the resource calls. */
  datatype Engine<!G> = Engine(
    pruebaCasilla: (G, int, int) -> (G, int),  // new game state and result code
    getBarco: (G, int) -> string,              // descriptor "fila#columna#orientacion#tamanyo"
    getSolucion: G -> seq<string>)             // one descriptor per ship

  /** What a handler sends back, in place of the HTTP response. */
  datatype Reply =
    | Created(id: int)      // 201, Location .../partidas/{id}
    | CreateFailed          // the game's constructor failed; nothing was stored
    | Deleted               // 200
    | NotFound              // 404
    | Probed(code: int)     // 200 with the probe's result code
    | Ship(descriptor: string)
    | Solution(xml: string)

  /** The resource's two fields. */
  datatype State<G> = State(db: map<int, G>, counter: int)

  /** A fresh resource: empty dictionary, `new AtomicInteger()` holds 0. */
  function Initial<G>(): State<G> {
    State(map[], 0)
  }

  /** Every stored id was issued by the counter: it lies in 1..counter. */
  ghost predicate Inv<G>(s: State<G>) {
    0 <= s.counter && forall id :: id in s.db ==> 1 <= id <= s.counter
  }

  /**
   * `nuevaPartida` (:59-80). The game is built first; only a built game takes
   * the next id (`incrementAndGet`) and is stored under it.
   */
  function CreateStep<G>(s: State<G>, built: Option<G>): (r: (State<G>, Reply))
    ensures built.None? ==> r.0 == s && r.1 == CreateFailed
    ensures built.Some? ==>
      && r.1 == Created(s.counter + 1)
      && r.0.counter == s.counter + 1
      && r.0.db.Keys == s.db.Keys + {s.counter + 1}
      && r.0.db[s.counter + 1] == built.value
      && (forall id :: id in s.db && id != s.counter + 1 ==> r.0.db[id] == s.db[id])
    ensures Inv(s) ==> Inv(r.0) && s.counter + 1 !in s.db
  {
    match built
    case None => (s, CreateFailed)
    case Some(g) =>
      var id := s.counter + 1;
      (State(s.db[id := g], id), Created(id))
  }

  /** `borraPartida` (:91-100): `remove`, and 404 when nothing was removed. */
  function DeleteStep<G>(s: State<G>, id: int): (r: (State<G>, Reply))
    ensures r.1 == (if id in s.db then Deleted else NotFound)
    ensures r.0.counter == s.counter
    ensures r.0.db.Keys == s.db.Keys - {id}
    ensures forall k :: k in r.0.db ==> r.0.db[k] == s.db[k]
    ensures Inv(s) ==> Inv(r.0)
  {
    if id in s.db then (State(s.db - {id}, s.counter), Deleted) else (s, NotFound)
  }

  /** `pruebaCasilla` (:113-130): look the game up and let it probe the cell. */
  function ProbeStep<G>(s: State<G>, e: Engine<G>, id: int, fila: int, columna: int): (r: (State<G>, Reply))
    ensures id !in s.db ==> r.0 == s && r.1 == NotFound
    ensures id in s.db ==>
      && r.1 == Probed(e.pruebaCasilla(s.db[id], fila, columna).1)
      && id in r.0.db && r.0.db[id] == e.pruebaCasilla(s.db[id], fila, columna).0
    ensures r.0.counter == s.counter && r.0.db.Keys == s.db.Keys
    ensures forall k :: k in s.db && k != id ==> r.0.db[k] == s.db[k]
    ensures Inv(s) ==> Inv(r.0)
  {
    if id !in s.db then (s, NotFound)
    else
      var (g, code) := e.pruebaCasilla(s.db[id], fila, columna);
      (State(s.db[id := g], s.counter), Probed(code))
  }

  /** `getBarco` (:143-159): look the game up and return one ship's descriptor. */
  function ShipStep<G>(s: State<G>, e: Engine<G>, id: int, idBarco: int): (r: Reply)
    ensures r == NotFound <==> id !in s.db
    ensures id in s.db ==> r == Ship(e.getBarco(s.db[id], idBarco))
  {
    if id !in s.db then NotFound else Ship(e.getBarco(s.db[id], idBarco))
  }

  /**
   * `getSolucion` (:169-186): look the game up and encode its solution with
   * `solucionAXML(vsol, vsol.length)`.
   */
  function SolutionStep<G>(s: State<G>, e: Engine<G>, id: int): (r: Reply)
    ensures r == NotFound <==> id !in s.db
    ensures id in s.db ==> var v := e.getSolucion(s.db[id]); r == Solution(SolutionXml(v, |v|))
  {
    if id !in s.db then NotFound
    else
      var vsol := e.getSolucion(s.db[id]);
      Solution(SolutionXml(vsol, |vsol|))
  }

  /**
   * The solution sent for a stored game decodes to `tam` = the number of
   * ships and to the game's descriptors, in order.
   */
  lemma SolutionReplyDecodes<G>(s: State<G>, e: Engine<G>, id: int)
    requires id in s.db
    requires NoMarkup(e.getSolucion(s.db[id]))
    ensures SolutionStep(s, e, id).Solution?
    ensures var v := e.getSolucion(s.db[id]);
            DecodeSolution(SolutionStep(s, e, id).xml) == Some((|v|, v))
  {
    TamCountsBarcos(e.getSolucion(s.db[id]));
  }

  // ---------------------------------------------------------------------------
  // Sequences of requests

  /** One request to the resource. */
  datatype Request<G> =
    | Create(built: Option<G>)
    | Delete(id: int)
    | Probe(id: int, fila: int, columna: int)
    | ShipQuery(id: int, idBarco: int)
    | SolutionQuery(id: int)
  {
    /** The request names game `x`. */
    predicate Targets(x: int) {
      !Create? && id == x
    }
  }

  function Step<G>(s: State<G>, e: Engine<G>, q: Request<G>): (State<G>, Reply) {
    match q
    case Create(built) => CreateStep(s, built)
    case Delete(id) => DeleteStep(s, id)
    case Probe(id, fila, columna) => ProbeStep(s, e, id, fila, columna)
    case ShipQuery(id, idBarco) => (s, ShipStep(s, e, id, idBarco))
    case SolutionQuery(id) => (s, SolutionStep(s, e, id))
  }

  /** Serves the requests one after another: final state and one reply per request. */
  function Run<G>(s: State<G>, e: Engine<G>, qs: seq<Request<G>>): (r: (State<G>, seq<Reply>))
    ensures |r.1| == |qs|
    ensures Inv(s) ==> Inv(r.0)
    decreases |qs|
  {
    if qs == [] then (s, [])
    else
      var (s1, reply) := Step(s, e, qs[0]);
      var (t, replies) := Run(s1, e, qs[1..]);
      (t, [reply] + replies)
  }

  /** The ids handed out by the successful creations among `replies`, in order. */
  function CreatedIds(replies: seq<Reply>): seq<int> {
    if replies == [] then []
    else (if replies[0].Created? then [replies[0].id] else []) + CreatedIds(replies[1..])
  }

  /**
   * Ids are handed out consecutively from the counter: the i-th successful
   * creation gets `counter + 1 + i`, and the counter ends at the last id issued.
   * From a fresh resource the ids are 1, 2, 3, ..., whatever is deleted between.
   */
  lemma {:induction false} IssuedIdsConsecutive<G>(s: State<G>, e: Engine<G>, qs: seq<Request<G>>)
    ensures var ids := CreatedIds(Run(s, e, qs).1);
            && (forall i :: 0 <= i < |ids| ==> ids[i] == s.counter + 1 + i)
            && Run(s, e, qs).0.counter == s.counter + |ids|
    decreases |qs|
  {
    if qs != [] {
      var (s1, reply) := Step(s, e, qs[0]);
      IssuedIdsConsecutive(s1, e, qs[1..]);
      var rest := Run(s1, e, qs[1..]).1;
      assert Run(s, e, qs).1 == [reply] + rest;
      assert ([reply] + rest)[1..] == rest;
      assert s1.counter == s.counter + (if reply.Created? then 1 else 0);
      assert reply.Created? ==> reply.id == s.counter + 1;
    }
  }

  /**
   * No id is issued twice, and from a valid state no issued id was already in
   * use: a game is never stored over another one.
   */
  lemma IssuedIdsUnique<G>(s: State<G>, e: Engine<G>, qs: seq<Request<G>>)
    requires Inv(s)
    ensures var ids := CreatedIds(Run(s, e, qs).1);
            && (forall i, j :: 0 <= i < j < |ids| ==> ids[i] != ids[j])
            && (forall i :: 0 <= i < |ids| ==> ids[i] !in s.db)
  {
    IssuedIdsConsecutive(s, e, qs);
  }

  /**
   * An id that is not stored and is not above the counter (it was issued and
   * then deleted, or never issued) stays absent, and every later request that
   * names it gets 404.
   */
  lemma {:induction false} GoneStaysGone<G>(s: State<G>, e: Engine<G>, id: int, qs: seq<Request<G>>)
    requires id !in s.db && id <= s.counter
    ensures id !in Run(s, e, qs).0.db
    ensures forall k :: 0 <= k < |qs| && qs[k].Targets(id) ==> Run(s, e, qs).1[k] == NotFound
    decreases |qs|
  {
    if qs != [] {
      var (s1, reply) := Step(s, e, qs[0]);
      GoneStaysGone(s1, e, id, qs[1..]);
      var rest := Run(s1, e, qs[1..]).1;
      assert Run(s, e, qs).1 == [reply] + rest;
      forall k | 0 <= k < |qs| && qs[k].Targets(id)
        ensures Run(s, e, qs).1[k] == NotFound
      {
        if k > 0 {
          assert qs[1..][k - 1] == qs[k];
        }
      }
    }
  }

  /**
   * Lifecycle: deleting a stored game succeeds, and from then on its id is
   * never reissued and every request naming it (a second delete included)
   * gets 404.
   */
  lemma DeleteIsFinal<G>(s: State<G>, e: Engine<G>, id: int, qs: seq<Request<G>>)
    requires Inv(s) && id in s.db
    ensures var r := Run(s, e, [Delete(id)] + qs);
            && r.1[0] == Deleted
            && id !in r.0.db
            && forall k :: 1 <= k < |r.1| && qs[k - 1].Targets(id) ==> r.1[k] == NotFound
  {
    var all := [Delete(id)] + qs;
    assert all[1..] == qs;
    var (s1, reply) := Step(s, e, Delete(id));
    GoneStaysGone(s1, e, id, qs);
  }

  // ---------------------------------------------------------------------------
  // The resource object

  class Registry<G> {
    /** The games, by id (`partidaDB`). */
    var partidaDB: map<int, G>
    /** The last id issued (`idCounter`). */
    var idCounter: int
    /** The game code the handlers delegate to. */
    const engine: Engine<G>

    function Snapshot(): State<G>
      reads this
    {
      State(partidaDB, idCounter)
    }

    ghost predicate Valid()
      reads this
    {
      Inv(Snapshot())
    }

    constructor (engine: Engine<G>)
      ensures Valid() && Snapshot() == Initial() && this.engine == engine
    {
      partidaDB := map[];
      idCounter := 0;
      this.engine := engine;
    }

    method NuevaPartida(built: Option<G>) returns (reply: Reply)
      requires Valid()
      modifies this
      ensures Valid()
      ensures (Snapshot(), reply) == CreateStep(old(Snapshot()), built)
    {
      if built.None? {
        return CreateFailed;
      }
      idCounter := idCounter + 1;
      var id := idCounter;
      partidaDB := partidaDB[id := built.value];
      reply := Created(id);
    }

    method BorraPartida(idPartida: int) returns (reply: Reply)
      requires Valid()
      modifies this
      ensures Valid()
      ensures (Snapshot(), reply) == DeleteStep(old(Snapshot()), idPartida)
    {
      if idPartida !in partidaDB {
        return NotFound;
      }
      partidaDB := partidaDB - {idPartida};
      reply := Deleted;
    }

    method PruebaCasilla(idPartida: int, fila: int, columna: int) returns (reply: Reply)
      requires Valid()
      modifies this
      ensures Valid()
      ensures (Snapshot(), reply) == ProbeStep(old(Snapshot()), engine, idPartida, fila, columna)
    {
      if idPartida !in partidaDB {
        return NotFound;
      }
      var (partida, res) := engine.pruebaCasilla(partidaDB[idPartida], fila, columna);
      partidaDB := partidaDB[idPartida := partida];
      reply := Probed(res);
    }

    method GetBarco(idPartida: int, idBarco: int) returns (reply: Reply)
      ensures reply == ShipStep(Snapshot(), engine, idPartida, idBarco)
    {
      if idPartida !in partidaDB {
        return NotFound;
      }
      reply := Ship(engine.getBarco(partidaDB[idPartida], idBarco));
    }

    method GetSolucion(idPartida: int) returns (reply: Reply)
      ensures reply == SolutionStep(Snapshot(), engine, idPartida)
    {
      if idPartida !in partidaDB {
        return NotFound;
      }
      var vsol := engine.getSolucion(partidaDB[idPartida]);
      var solucion := SolucionAXML(vsol, |vsol|);
      reply := Solution(solucion);
    }
  }

  // ---------------------------------------------------------------------------
  // The counter as written: a 32-bit AtomicInteger

  const MinInt32: int := -0x8000_0000
  const MaxInt32: int := 0x7fff_ffff
  const Modulus32: int := 0x1_0000_0000

  predicate IsInt32(x: int) {
    MinInt32 <= x <= MaxInt32
  }

  /** The 32-bit two's-complement value of `x`. */
  function Wrap32(x: int): (r: int)
    ensures IsInt32(r) && (x - r) % Modulus32 == 0
  {
    (x - MinInt32) % Modulus32 + MinInt32
  }

  /** `AtomicInteger.incrementAndGet` on a Java `int`: MaxInt32 + 1 wraps to MinInt32. */
  function IncrementAndGet32(c: int): (r: int)
    requires IsInt32(c)
    ensures r == Wrap32(c + 1)
  {
    if c == MaxInt32 then MinInt32 else c + 1
  }

  lemma ModUnique(a: int, q: int, r: int)
    requires a == q * Modulus32 + r && 0 <= r < Modulus32
    ensures a % Modulus32 == r
  {
  }

  /** Incrementing a wrapped value wraps the successor. */
  lemma WrapNext(x: int)
    ensures IncrementAndGet32(Wrap32(x)) == Wrap32(x + 1)
  {
    var a := x - MinInt32;
    var q, r := a / Modulus32, a % Modulus32;
    assert a == q * Modulus32 + r;
    if r < Modulus32 - 1 {
      ModUnique(a + 1, q, r + 1);
    } else {
      ModUnique(a + 1, q + 1, 0);
    }
  }

  /** `idCounter` after `k` successful creations on a fresh resource. */
  function CounterAfter32(k: nat): (r: int)
    ensures r == Wrap32(k)
  {
    if k == 0 then 0
    else
      WrapNext(k - 1);
      IncrementAndGet32(CounterAfter32(k - 1))
  }

  /**
   * `nuevaPartida` with the 32-bit counter of the source. Until the counter
   * reaches MaxInt32 it behaves exactly as the unbounded `CreateStep`.
   */
  function CreateStep32<G>(s: State<G>, built: Option<G>): (r: (State<G>, Reply))
    requires IsInt32(s.counter)
    ensures IsInt32(r.0.counter)
    ensures s.counter < MaxInt32 ==> r == CreateStep(s, built)
    ensures s.counter == MaxInt32 && built.Some? ==> r.1 == Created(MinInt32)
  {
    match built
    case None => (s, CreateFailed)
    case Some(g) =>
      var id := IncrementAndGet32(s.counter);
      (State(s.db[id := g], id), Created(id))
  }

  /** `k` successful creations of `g` with the 32-bit counter. */
  function CreateMany32<G>(s: State<G>, g: G, k: nat): (r: State<G>)
    requires IsInt32(s.counter)
    ensures IsInt32(r.counter)
  {
    if k == 0 then s else CreateStep32(CreateMany32(s, g, k - 1), Some(g)).0
  }

  lemma {:induction false} CreateMany32Keeps<G>(g: G, k: nat)
    requires k >= 1
    ensures 1 in CreateMany32(Initial(), g, k).db
    ensures CreateMany32(Initial(), g, k).counter == CounterAfter32(k)
  {
    if k > 1 {
      CreateMany32Keeps(g, k - 1);
    }
  }

  /**
   * As written, ids are not unique: after 2^32 creations in which game 1 was
   * never deleted the counter is back at 0, so the next creation is given id 1
   * again and `put` replaces the live game 1 with the new one.
   */
  lemma WrapReissuesLiveId<G>(g: G, h: G)
    ensures var s := CreateMany32(Initial(), g, Modulus32);
            && 1 in s.db
            && s.counter == 0
            && CreateStep32(s, Some(h)).1 == Created(1)
            && CreateStep32(s, Some(h)).0.db[1] == h
            && CreateStep32(s, Some(h)).0.db.Keys == s.db.Keys
  {
    var s := CreateMany32(Initial(), g, Modulus32);
    CreateMany32Keeps(g, Modulus32);
    assert s.counter == Wrap32(Modulus32);
    ModUnique(Modulus32 - MinInt32, 1, -MinInt32);
    assert s.counter == 0;
    var r := CreateStep32(s, Some(h));
    assert r.0 == State(s.db[1 := h], 1);
  }
}
