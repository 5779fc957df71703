# Battleship game-session resource, modelled in Dafny

This project models the core of `RecursoPartida`, the web resource of a
battleship guessing game (`src/servicios/RecursoPartida.java`). The resource
keeps a dictionary of running games (`partidaDB`, integer id to game) and an id
counter (`idCounter`). Its handlers create a game under a fresh id
(`nuevaPartida`), delete a game (`borraPartida`), probe a cell
(`pruebaCasilla`), fetch one ship's descriptor (`getBarco`) and fetch the whole
solution (`getSolucion`), which `solucionAXML` encodes as

    <solucion tam="N"><barco>d0</barco>...<barco>d(N-1)</barco></solucion>

Files:

- `options.dfy` — `Option`, for an absent result: a failed construction or a failed read.
- `decimal.dfy` — how Java writes an `int` into a string (`"..." + n`), with a
  reader proved to invert it.
- `solution_xml.dfy` — module `SolutionEncoding`: the encoding as a function
  (`SolutionXml`), the StringBuilder loop of `solucionAXML` as a method proved
  equal to it (`SolucionAXML`), and a decoder whose round trip with the encoding
  shows that `tam` and every descriptor, in index order, are in the output.
- `registry.dfy` — module `PartidaRegistry`: the state of the resource, one
  specification function per handler (`CreateStep` ... `SolutionStep`), the
  replay of a sequence of requests (`Run`) with the lemmas about ids and
  deletion, the class `Registry` whose methods update `partidaDB` and
  `idCounter` in place as the handlers do, and the 32-bit counter of the source
  (see Findings).

The game class `modelo.Partida` is not part of this model. Its type is the
parameter `G`. The three game methods the handlers call (`pruebaCasilla`,
`getBarco`, `getSolucion`) are the fields of an `Engine<G>` value, and the
outcome of `new Partida(filas, columnas, barcos)` is a parameter of the create
handler (`None` when the constructor fails). An HTTP response is a `Reply`
value: `Created(id)` for 201, `NotFound` for 404, and so on.

Dimension checks and unknown ship ids are left to `Partida`: `RecursoPartida`
passes the request's values through unchecked, and so does the model.

## Model

| member | source | states |
|---|---|---|
| `PartidaRegistry.CreateStep` | src/servicios/RecursoPartida.java:59-80 | A failed construction returns `CreateFailed` and leaves map and counter unchanged. Otherwise the reply is `Created(counter + 1)`, the counter becomes that id, the map gains exactly that key holding the new game, and every other entry is unchanged. From a valid state the new id was not already a key, and the invariant holds afterwards. |
| `PartidaRegistry.DeleteStep` | src/servicios/RecursoPartida.java:91-100 | The reply is `Deleted` exactly when the id was stored, and `NotFound` otherwise. The key set loses exactly that id, all other entries and the counter are unchanged, and the invariant is kept. |
| `PartidaRegistry.ProbeStep` | src/servicios/RecursoPartida.java:113-130 | An absent id gives `NotFound` and no change. A stored id gives `Probed(code)` with the engine's code, and the game's new state is kept under the same id. Keys, counter and every other game are unchanged. |
| `PartidaRegistry.ShipStep` | src/servicios/RecursoPartida.java:143-159 | The reply is `NotFound` if and only if the id is absent. Otherwise it is the stored game's descriptor for `idBarco`. |
| `PartidaRegistry.SolutionStep` | src/servicios/RecursoPartida.java:169-186 | The reply is `NotFound` if and only if the id is absent. Otherwise it is `Solution` carrying the `solucionAXML` document of the stored game's descriptors, with `numBarcos` equal to their count. |
| `PartidaRegistry.SolutionReplyDecodes` | src/servicios/RecursoPartida.java:181-184 | For a stored game whose descriptors hold no `<`, the solution sent decodes to `tam` equal to the game's ship count and to its descriptors, in order. |
| `PartidaRegistry.Run` | src/servicios/RecursoPartida.java:34-36 | Serving any sequence of requests gives one reply per request and preserves the invariant that every stored id lies in `1..idCounter`. |
| `PartidaRegistry.IssuedIdsConsecutive` | src/servicios/RecursoPartida.java:67 | The i-th successful creation is given `counter + 1 + i`, and the counter ends at the last id issued. On a fresh resource the first id is 1. |
| `PartidaRegistry.IssuedIdsUnique` | src/servicios/RecursoPartida.java:67-68 | No id is issued twice in any sequence of requests. From a valid state no issued id was already stored, so `put` never replaces a game. |
| `PartidaRegistry.GoneStaysGone` | src/servicios/RecursoPartida.java:94-95 | An id that is absent and not above the counter stays absent through any requests. Every later delete, probe, ship query or solution query naming it gets `NotFound`. |
| `PartidaRegistry.DeleteIsFinal` | src/servicios/RecursoPartida.java:94-98 | Deleting a stored game replies `Deleted`. Afterwards the id is never reissued, and every request naming it, a second delete included, gets `NotFound`. |
| `PartidaRegistry.Registry.constructor` | src/servicios/RecursoPartida.java:34-44 | A new resource has an empty map and a counter at 0, and satisfies the invariant. |
| `PartidaRegistry.Registry.NuevaPartida` | src/servicios/RecursoPartida.java:59-80 | Updates `partidaDB` and `idCounter` in place to the state `CreateStep` gives, returns its reply, and keeps the invariant. |
| `PartidaRegistry.Registry.BorraPartida` | src/servicios/RecursoPartida.java:91-100 | Updates `partidaDB` in place to the state `DeleteStep` gives and returns its reply. |
| `PartidaRegistry.Registry.PruebaCasilla` | src/servicios/RecursoPartida.java:113-130 | Looks the game up and delegates to the engine. The new state and the reply are those of `ProbeStep`. |
| `PartidaRegistry.Registry.GetBarco` | src/servicios/RecursoPartida.java:143-159 | Changes nothing. Replies as `ShipStep` does. |
| `PartidaRegistry.Registry.GetSolucion` | src/servicios/RecursoPartida.java:169-186 | Changes nothing. Encodes the game's solution with `SolucionAXML`, passing the array's length, and replies as `SolutionStep` does. |
| `SolutionEncoding.SolucionAXML` | src/servicios/RecursoPartida.java:195-204 | The loop builds exactly the opening tag with `tam`, one `barco` element for each `i < numBarcos` in index order, and the closing tag. It requires `numBarcos` to be at most the array's length, the bound of the `solucion[i]` indexing. |
| `SolutionEncoding.SolutionRoundTrip` | src/servicios/RecursoPartida.java:198-202 | Decoding the output gives back `tam = numBarcos` and exactly the visited descriptors in order. This holds for any `numBarcos`, a negative one included, when the descriptors hold no `<`. |
| `SolutionEncoding.TamCountsBarcos` | src/servicios/RecursoPartida.java:181-182 | With `numBarcos` set to the array's length, as `getSolucion` calls it, and no descriptor holding `<`, `tam` equals the number of `barco` elements and those elements are the array. |
| `SolutionEncoding.SolutionXmlInjective` | src/servicios/RecursoPartida.java:195-204 | Two different solutions whose descriptors hold no `<` never produce the same document. |
| `SolutionEncoding.MarkupBreaksInjectivity` | src/servicios/RecursoPartida.java:201 | The encoder escapes nothing, so without that condition two different lists can give the same document: `["x</barco><barco>y", "z"]` and `["x", "y</barco><barco>z"]`. |
| `SolutionEncoding.SolutionXmlLength` | src/servicios/RecursoPartida.java:198-202 | The output length is 17 plus the length of `tam`'s text, plus each visited descriptor's length plus 15, plus 11. Lengths count characters. Java's `String.length()` counts UTF-16 code units, so the two agree when the descriptors hold no character outside the Basic Multilingual Plane, as the engine's ASCII `fila#columna#orientacion#tamanyo` descriptors do. |
| `Decimal.IntToString` | src/servicios/RecursoPartida.java:198 | The text of `numBarcos` in the `tam` attribute is non-empty, starts with `-` exactly when the number is negative, has only digits after that sign, has no leading zero, and holds no `"`. |
| `Decimal.IntToStringRoundTrip` | src/servicios/RecursoPartida.java:198 | The text of any `int` in the `tam` attribute reads back as that `int`. |
| `PartidaRegistry.IncrementAndGet32` | src/servicios/RecursoPartida.java:67 | `incrementAndGet` on a 32-bit counter is the two's-complement wrap of `counter + 1`. |
| `PartidaRegistry.CounterAfter32` | src/servicios/RecursoPartida.java:36 | After `k` creations on a fresh resource the 32-bit counter is `k` wrapped to 32 bits. |
| `PartidaRegistry.CreateStep32` | src/servicios/RecursoPartida.java:63-68 | `nuevaPartida` with the 32-bit counter keeps the counter a 32-bit value. While the counter is below MaxInt32 it gives exactly the state and reply of `CreateStep`. At MaxInt32 a successful creation is given id MinInt32. |
| `PartidaRegistry.WrapReissuesLiveId` | src/servicios/RecursoPartida.java:67-68 | As written, 2^32 creations bring the counter back to 0. The next creation gets id 1 again and replaces a game 1 that is still stored. |

## Left out

- The JAX-RS layer: annotations, `Response`/`ResponseBuilder`, status codes and the `Location` URI built from `UriInfo` (lines 57-58, 73-79). Each outcome is a `Reply` value.
- Logging with `System.out.println` (lines 43, 61): output only, with no effect on state.
- Concurrency: `ConcurrentHashMap` and `AtomicInteger` make each handler's map and counter access thread-safe. The model runs requests one at a time.
- Resource lifetime: the model assumes that one `RecursoPartida` object serves every request, registered as a singleton outside this file. `partidaDB` and `idCounter` are instance fields. Under JAX-RS's default of one resource object per request, each request would see an empty `partidaDB` and `idCounter` at 0: every creation would be given id 1, and every later delete, probe or query would get 404. `Run`, `IssuedIdsUnique` and `DeleteIsFinal` describe the shared-object case only.
- `modelo.Partida` is not part of this model. Ship placement, probe result codes and the checks on `fila`, `columna`, `idBarco` and the dimensions belong to it. Its three methods are the opaque engine functions. Any exception they throw is not modelled, because the engine functions are total.
- `new Partida(filas, columnas, barcos)` is randomised. The model takes its outcome as a parameter, so `filas`, `columnas` and `barcos` do not appear in it.
- `PartidaRegistry.Registry.PruebaCasilla`: the Java game is an object changed in place and shared by reference. The model's games are values, and the probed game's new state is stored back under the same id. Aliasing of a game object is not captured.
- `PartidaRegistry.Registry.NuevaPartida`: the counter is an unbounded integer. The 32-bit wrap-around of `AtomicInteger` is modelled separately, under Findings.
- `SolutionEncoding.SolucionAXML`: instead of modelling the `ArrayIndexOutOfBoundsException` for `numBarcos > solucion.length`, it requires `numBarcos <= |solucion|`. The only caller passes the length. A `null` array is not modelled either.
- `SolutionEncoding.SolutionRoundTrip`, `SolutionEncoding.TamCountsBarcos`, `SolutionEncoding.SolutionXmlInjective` and `PartidaRegistry.SolutionReplyDecodes` are stated for descriptors without `<`. The decoder needs that condition because the encoder escapes nothing, and `MarkupBreaksInjectivity` shows that the condition is needed.
- `SolutionEncoding.SolucionAXML`: a `null` element of the Java `String[]` is written as the text `null`. A `seq<string>` cannot hold such an element, so this case is not modelled.

## Findings

| source | as written | input that shows it | evidently intended | confidence | as-written member | corrected member |
|---|---|---|---|---|---|---|
| src/servicios/RecursoPartida.java:36 | `idCounter` is a 32-bit `AtomicInteger`. `incrementAndGet` wraps from 2147483647 to -2147483648, so after 2^32 creations the ids repeat, and `put` at line 68 replaces the live game under a reused id. | 2^32 + 1 calls to `nuevaPartida` in which game 1 is never deleted. The last call is given id 1 and replaces game 1. | Ids unique for the resource's lifetime, as the comment at line 35 says ("identificadores únicos"). | not executed; needs 2^32 creations | `PartidaRegistry.WrapReissuesLiveId` | `PartidaRegistry.IssuedIdsUnique` |
