/** The store administration page (src/pages/Tiendas.tsx): loading the store
    list merged with the prize counts, and the local reconciliation of that
    list after a store is created, deactivated or updated, the request fan-out
    of an update, the loading of a store's prizes before editing, and the two
    display orders.

    Server replies are inputs; timestamps are integers handed in by the caller. */
module Stores {
  import opened Wrappers
  import opened Text
  import opened Http
  import opened EditStoreModal

  const StoresFallback: string := "La respuesta de la API no contiene el listado de tiendas."
  const LoadErrorPrefix: string := "Error al cargar datos: "
  const CreateStoreFallback: string := "Fallo al crear la tienda."
  const CreatedMessage: string := "Tienda y premios creados exitosamente"
  const NotFoundError: string := "Tienda no encontrada o ya estaba inactiva."
  const DeactivateFallback: string := "Error al desactivar la tienda."
  const DeactivatedMessage: string := "Tienda desactivada exitosamente."
  const NoSelectionError: string := "No hay tienda seleccionada para actualizar."
  const RenameFallback: string := "Fallo al actualizar el nombre de la tienda."
  const SaveErrorPrefix: string := "Fallo al guardar cambios: "
  const EditPrizesFallback: string := "Fallo al obtener la lista de premios."
  const EditErrorPrefix: string := "Error al editar: "

  /** A row of the store table. `prizes` is only filled in by an update. */
  datatype Store = Store(
    id: string,
    name: string,
    campaign: string,
    isActive: bool,
    createdAt: int,
    updatedAt: int,
    availablePrizesCount: int,
    prizes: Option<seq<PremioEdit>>)

  /** The `stores` member of the store list reply's `data`. */
  datatype StoresField = StoreArray(stores: seq<Store>) | NoStoreArray

  /** The calls the page makes. */
  datatype Request =
    | GetStores(campaign: string)
    | GetCounts(campaign: string)
    | PostStore(name: string, campaign: string)
    | PostPrize(storeId: string, name: string, description: string, initialStock: int)
    | Deactivate(storeId: string)
    | PutStore(storeId: string, name: string)
    | PutPrize(prizeId: string, name: string, availableStock: int)
    | GetStorePrizes(storeId: string)

  // ---------------------------------------------------------------- loading

  /** `countsMap[id] || 0`. */
  function CountFor(counts: map<string, int>, id: string): (n: int)
    ensures id in counts ==> n == counts[id]
    ensures id !in counts ==> n == 0
  {
    if id in counts && counts[id] != 0 then counts[id] else 0
  }

  /** The merge of `fetchData`: every row keeps its position and every field
      but the count, which is taken from the counts map. */
  function MergeCounts(rows: seq<Store>, counts: map<string, int>): (r: seq<Store>)
    ensures |r| == |rows|
    ensures forall i :: 0 <= i < |rows| ==>
              && r[i].availablePrizesCount == CountFor(counts, rows[i].id)
              && r[i].(availablePrizesCount := rows[i].availablePrizesCount) == rows[i]
  {
    seq(|rows|, i requires 0 <= i < |rows| => rows[i].(availablePrizesCount := CountFor(counts, rows[i].id)))
  }

  /** Merging twice with the same counts is merging once. */
  lemma MergeCountsIdempotent(rows: seq<Store>, counts: map<string, int>)
    ensures MergeCounts(MergeCounts(rows, counts), counts) == MergeCounts(rows, counts)
  {
    var once := MergeCounts(rows, counts);
    assert forall i :: 0 <= i < |rows| ==> MergeCounts(once, counts)[i] == once[i];
  }

  /** `resultCounts.data?.counts || {}`: a missing `data` or `counts` gives the
      empty map. */
  function CountsOf(data: Option<Option<map<string, int>>>): (m: map<string, int>)
    ensures data.None? || data.value.None? ==> m == map[]
    ensures data.Some? && data.value.Some? ==> m == data.value.value
  {
    match data
    case Some(Some(m)) => m
    case _ => map[]
  }

  /** What `fetchData` obtains from the store list and the counts replies: the
      merged rows, or the message of the error it catches. The counts reply
      only matters when it cannot be fetched or parsed; its status is not read.
      Both `Promise.all` steps take their outcomes stores first. */
  function LoadRows(stores: Reply<StoresField>, counts: Reply<Option<map<string, int>>>): (r: Result<seq<Store>, string>)
    ensures r.Success? <==>
              && stores.Answered? && counts.Answered? && stores.body.Json? && counts.body.Json?
              && IsOk(stores.status) && stores.body.data.Some? && stores.body.data.value.StoreArray?
    ensures r.Success? ==> r.value == MergeCounts(stores.body.data.value.stores, CountsOf(counts.body.data))
    ensures stores.Answered? && counts.Answered? && stores.body.Json? && counts.body.Json?
            && !(IsOk(stores.status) && stores.body.data.Some? && stores.body.data.value.StoreArray?) ==>
              r == Failure(OrElse(stores.body.message, StoresFallback))
  {
    var fetched := JoinAll([Sent(stores), Sent(counts)]);
    if fetched.Rejected? then Failure(fetched.reason)
    else
      assert Sent(stores).Fulfilled? && Sent(counts).Fulfilled? by {
        assert [Sent(stores), Sent(counts)][0] == Sent(stores);
        assert [Sent(stores), Sent(counts)][1] == Sent(counts);
      }
      var parsed := JoinAll([Parsed(stores.body), Parsed(counts.body)]);
      if parsed.Rejected? then Failure(parsed.reason)
      else
        assert Parsed(stores.body).Fulfilled? && Parsed(counts.body).Fulfilled? by {
          assert [Parsed(stores.body), Parsed(counts.body)][0] == Parsed(stores.body);
          assert [Parsed(stores.body), Parsed(counts.body)][1] == Parsed(counts.body);
        }
        var body := stores.body;
        if !IsOk(stores.status) || body.data.None? || body.data.value.NoStoreArray? then
          Failure(OrElse(body.message, StoresFallback))
        else Success(MergeCounts(body.data.value.stores, CountsOf(counts.body.data)))
  }

  /** A counts reply without counts is not an error: every row then shows 0. */
  lemma MissingCountsShowZero(stores: Reply<StoresField>, counts: Reply<Option<map<string, int>>>)
    requires LoadRows(stores, counts).Success?
    requires counts.body.data.None? || counts.body.data.value.None?
    ensures forall i :: 0 <= i < |LoadRows(stores, counts).value| ==>
              LoadRows(stores, counts).value[i].availablePrizesCount == 0
  {
  }

  // ---------------------------------------------------------------- create

  /** A prize entered in the creation dialog. */
  datatype NewPrize = NewPrize(nombre: string, stock: int)

  /** `prizes.reduce((sum, p) => sum + p.stock, 0)`. */
  function SumStock(prizes: seq<NewPrize>): int {
    if prizes == [] then 0 else SumStock(prizes[..|prizes| - 1]) + prizes[|prizes| - 1].stock
  }

  lemma {:induction false} SumStockAppend(a: seq<NewPrize>, b: seq<NewPrize>)
    ensures SumStock(a + b) == SumStock(a) + SumStock(b)
  {
    if b == [] {
      assert a + b == a;
    } else {
      assert (a + b)[..|a + b| - 1] == a + b[..|b| - 1];
      SumStockAppend(a, b[..|b| - 1]);
    }
  }

  /** The row added locally after a successful creation: active, created and
      updated now, counting the sum of the entered stocks. */
  function NewStoreRow(id: string, name: string, campaign: string, now: int, prizes: seq<NewPrize>): (s: Store)
    ensures s.id == id && s.name == name && s.campaign == campaign && s.isActive
    ensures s.createdAt == now && s.updatedAt == now && s.prizes.None?
    ensures s.availablePrizesCount == SumStock(prizes)
  {
    Store(id, name, campaign, true, now, now, SumStock(prizes), None)
  }

  /** The id of the created store, or the message of the error. */
  function StoreCreateResult(reply: Reply<Option<string>>): (r: Result<string, string>)
    ensures r.Success? <==>
              && reply.Answered? && reply.body.Json? && IsOk(reply.status)
              && reply.body.data.Some? && reply.body.data.value.Some? && reply.body.data.value.value != ""
    ensures r.Success? ==> r.value == reply.body.data.value.value
    ensures reply.Answered? && reply.body.Json? && r.Failure? ==>
              r.error == OrElse(reply.body.message, CreateStoreFallback)
  {
    match reply
    case Threw(e) => Failure(e)
    case Answered(status, body) =>
      match body
      case NotJson(pe) => Failure(pe)
      case Json(_, data, message) =>
        if !IsOk(status) || data.None? || data.value.None? || data.value.value == "" then
          Failure(OrElse(message, CreateStoreFallback))
        else Success(data.value.value)
  }

  function PrizeDescription(nombre: string, campaign: string): string {
    "Premio de " + nombre + " para " + campaign
  }

  /** One prize creation per entered prize, in order, for the new store. */
  function CreatePrizeRequests(storeId: string, campaign: string, prizes: seq<NewPrize>): (r: seq<Request>)
    ensures |r| == |prizes|
    ensures forall i :: 0 <= i < |prizes| ==>
              r[i] == PostPrize(storeId, prizes[i].nombre, PrizeDescription(prizes[i].nombre, campaign), prizes[i].stock)
  {
    seq(|prizes|, i requires 0 <= i < |prizes| =>
      PostPrize(storeId, prizes[i].nombre, PrizeDescription(prizes[i].nombre, campaign), prizes[i].stock))
  }

  /** How one prize creation settled. A non-ok status rejects with the body's
      message or a default naming the prize; an ok reply rejects only if its
      body does not parse. */
  function PrizeCreateSettled(nombre: string, reply: Reply<()>): (s: Settled)
    ensures s.Fulfilled? <==> reply.Answered? && IsOk(reply.status) && reply.body.Json?
    ensures reply.Answered? && !IsOk(reply.status) && reply.body.Json? ==>
              s == Rejected(OrElse(reply.body.message, "Fallo al crear el premio: " + nombre))
  {
    match reply
    case Threw(e) => Rejected(e)
    case Answered(status, body) =>
      match body
      case NotJson(pe) => Rejected(pe)
      case Json(_, _, message) =>
        if !IsOk(status) then Rejected(OrElse(message, "Fallo al crear el premio: " + nombre))
        else Fulfilled
  }

  function PrizeOutcomes(prizes: seq<NewPrize>, replies: seq<Reply<()>>): (r: seq<Settled>)
    requires |replies| == |prizes|
    ensures |r| == |prizes|
    ensures forall i :: 0 <= i < |prizes| ==> r[i] == PrizeCreateSettled(prizes[i].nombre, replies[i])
  {
    seq(|prizes|, i requires 0 <= i < |prizes| => PrizeCreateSettled(prizes[i].nombre, replies[i]))
  }

  // ---------------------------------------------------------------- delete

  /** The error of a deactivation, if any: 404 has its own message, other
      non-ok statuses take the body's message or a default. */
  function DeleteError(reply: Reply<()>): (e: Option<string>)
    ensures e.None? <==> reply.Answered? && IsOk(reply.status)
    ensures reply.Answered? && reply.status == 404 ==> e == Some(NotFoundError)
    ensures reply.Answered? && reply.status != 404 && !IsOk(reply.status) && reply.body.Json? ==>
              e == Some(OrElse(reply.body.message, DeactivateFallback))
  {
    match reply
    case Threw(err) => Some(err)
    case Answered(status, body) =>
      if status == 404 then Some(NotFoundError)
      else if !IsOk(status) then
        match body
        case NotJson(pe) => Some(pe)
        case Json(_, _, message) => Some(OrElse(message, DeactivateFallback))
      else None
  }

  /** The `map` step: the rows with the id become inactive. */
  function MarkInactive(rows: seq<Store>, id: string): (r: seq<Store>)
    ensures |r| == |rows|
    ensures forall i :: 0 <= i < |rows| ==>
              r[i] == (if rows[i].id == id then rows[i].(isActive := false) else rows[i])
  {
    seq(|rows|, i requires 0 <= i < |rows| => if rows[i].id == id then rows[i].(isActive := false) else rows[i])
  }

  /** The `filter` step: the active rows, in order. */
  function ActiveOnly(rows: seq<Store>): seq<Store> {
    if rows == [] then []
    else ActiveOnly(rows[..|rows| - 1]) + (if rows[|rows| - 1].isActive then [rows[|rows| - 1]] else [])
  }

  /** The local update after a deactivation. */
  function DeactivateLocal(rows: seq<Store>, id: string): seq<Store> {
    ActiveOnly(MarkInactive(rows, id))
  }

  /** The rows that have another id and are active, in their original order. */
  function OthersActive(rows: seq<Store>, id: string): seq<Store> {
    if rows == [] then []
    else
      var last := rows[|rows| - 1];
      OthersActive(rows[..|rows| - 1], id) + (if last.id != id && last.isActive then [last] else [])
  }

  /** Map-then-filter keeps exactly the rows with another id that were already
      active: an inactive row of another store is dropped as well. */
  lemma {:induction false} DeactivateLocalIsFilter(rows: seq<Store>, id: string)
    ensures DeactivateLocal(rows, id) == OthersActive(rows, id)
  {
    if rows != [] {
      var init := rows[..|rows| - 1];
      assert MarkInactive(rows, id)[..|rows| - 1] == MarkInactive(init, id);
      DeactivateLocalIsFilter(init, id);
    }
  }

  lemma {:induction false} OthersActiveMembers(rows: seq<Store>, id: string)
    ensures forall s :: s in OthersActive(rows, id) <==> s in rows && s.id != id && s.isActive
    ensures |OthersActive(rows, id)| <= |rows|
  {
    if rows != [] {
      var init := rows[..|rows| - 1];
      OthersActiveMembers(init, id);
      assert rows == init + [rows[|rows| - 1]];
    }
  }

  /** Deactivating the same store again changes nothing more. */
  lemma {:induction false} OthersActiveIdempotent(rows: seq<Store>, id: string)
    ensures OthersActive(OthersActive(rows, id), id) == OthersActive(rows, id)
  {
    if rows != [] {
      var init := rows[..|rows| - 1];
      var last := rows[|rows| - 1];
      OthersActiveIdempotent(init, id);
      var once := OthersActive(init, id);
      if last.id != id && last.isActive {
        var r := once + [last];
        assert OthersActive(rows, id) == r;
        assert r[..|r| - 1] == once && r[|r| - 1] == last;
        assert OthersActive(r, id) == OthersActive(once, id) + [last];
      } else {
        assert OthersActive(rows, id) == once;
      }
    }
  }

  // ---------------------------------------------------------------- update

  function PrizePut(p: PremioEdit): Request {
    PutPrize(p.id, p.nombre, p.stockDisponible)
  }

  /** The requests of an update: a rename of the store when the name changed,
      then one prize update per prize. */
  function UpdateRequests(storeId: string, oldName: string, name: string, prizes: seq<PremioEdit>): (r: seq<Request>)
    ensures |r| == |prizes| + (if name != oldName then 1 else 0)
  {
    (if name != oldName then [PutStore(storeId, name)] else [])
    + seq(|prizes|, i requires 0 <= i < |prizes| => PrizePut(prizes[i]))
  }

  /** A rename is sent exactly when the name changed, and only first; the
      prize updates follow in the order of the prizes. */
  lemma UpdateRequestsShape(storeId: string, oldName: string, name: string, prizes: seq<PremioEdit>)
    ensures var r := UpdateRequests(storeId, oldName, name, prizes);
      && ((exists k :: 0 <= k < |r| && r[k].PutStore?) <==> name != oldName)
      && (forall k :: 0 <= k < |r| && r[k].PutStore? ==> k == 0 && r[k] == PutStore(storeId, name))
      && (forall i :: 0 <= i < |prizes| ==> r[|r| - |prizes| + i] == PrizePut(prizes[i]))
  {
    var head: seq<Request> := if name != oldName then [PutStore(storeId, name)] else [];
    var r := UpdateRequests(storeId, oldName, name, prizes);
    assert forall k :: |head| <= k < |r| ==> r[k] == PrizePut(prizes[k - |head|]);
    if name != oldName {
      assert r[0].PutStore?;
    }
  }

  /** Builds the request list of `handleUpdate` by pushing the rename and then
      one request per prize. */
  method BuildUpdateRequests(storeId: string, oldName: string, name: string, prizes: seq<PremioEdit>)
    returns (updates: seq<Request>)
    ensures updates == UpdateRequests(storeId, oldName, name, prizes)
  {
    updates := [];
    if name != oldName {
      updates := updates + [PutStore(storeId, name)];
    }
    ghost var head := updates;
    var i := 0;
    while i < |prizes|
      invariant 0 <= i <= |prizes|
      invariant updates == head + seq(i, j requires 0 <= j < i => PrizePut(prizes[j]))
    {
      updates := updates + [PrizePut(prizes[i])];
      i := i + 1;
    }
  }

  /** The default message of a failed update request. */
  function UpdateFallback(req: Request): string {
    match req
    case PutPrize(_, nombre, _) => "Fallo al actualizar el premio " + nombre + "."
    case _ => RenameFallback
  }

  /** How one update request settled: it fails on a network error, an
      unparsable body, a non-ok status or a body without `success`. */
  function UpdateSettled(fallback: string, reply: Reply<()>): (s: Settled)
    ensures s.Fulfilled? <==> reply.Answered? && reply.body.Json? && IsOk(reply.status) && reply.body.success
    ensures reply.Answered? && reply.body.Json? && s.Rejected? ==> s.reason == OrElse(reply.body.message, fallback)
  {
    match reply
    case Threw(e) => Rejected(e)
    case Answered(status, body) =>
      match body
      case NotJson(pe) => Rejected(pe)
      case Json(success, _, message) =>
        if !IsOk(status) || !success then Rejected(OrElse(message, fallback)) else Fulfilled
  }

  function UpdateOutcomes(reqs: seq<Request>, replies: seq<Reply<()>>): (r: seq<Settled>)
    requires |replies| == |reqs|
    ensures |r| == |reqs|
    ensures forall k :: 0 <= k < |reqs| ==> r[k] == UpdateSettled(UpdateFallback(reqs[k]), replies[k])
  {
    seq(|reqs|, k requires 0 <= k < |reqs| => UpdateSettled(UpdateFallback(reqs[k]), replies[k]))
  }

  /** An update is saved exactly when every request was answered with an ok
      status and a body reporting success; otherwise the error is that of the
      first request, in settle order, that was not. */
  lemma UpdateSavedIffAllAccepted(reqs: seq<Request>, replies: seq<Reply<()>>)
    requires |replies| == |reqs|
    ensures JoinAll(UpdateOutcomes(reqs, replies)).Fulfilled? <==>
              forall k :: 0 <= k < |reqs| ==>
                replies[k].Answered? && replies[k].body.Json? && IsOk(replies[k].status) && replies[k].body.success
    ensures JoinAll(UpdateOutcomes(reqs, replies)).Rejected? ==>
              exists k :: 0 <= k < |reqs| && UpdateSettled(UpdateFallback(reqs[k]), replies[k]) == JoinAll(UpdateOutcomes(reqs, replies))
  {
    var outcomes := UpdateOutcomes(reqs, replies);
    if JoinAll(outcomes).Fulfilled? {
      assert forall k :: 0 <= k < |reqs| ==> outcomes[k].Fulfilled?;
    }
  }

  /** The local update after a saved edit: the rows with the store's id take
      the new name, the new prizes, the update time and the sum of the
      available stocks; nothing else changes. */
  function ReplaceById(rows: seq<Store>, storeId: string, name: string, prizes: seq<PremioEdit>, now: int): (r: seq<Store>)
    ensures |r| == |rows|
    ensures forall i :: 0 <= i < |rows| && rows[i].id != storeId ==> r[i] == rows[i]
    ensures forall i :: 0 <= i < |rows| && rows[i].id == storeId ==>
              && r[i].name == name && r[i].prizes == Some(prizes) && r[i].updatedAt == now
              && r[i].availablePrizesCount == TotalAvailable(prizes)
              && r[i].(name := rows[i].name, prizes := rows[i].prizes, updatedAt := rows[i].updatedAt,
                       availablePrizesCount := rows[i].availablePrizesCount) == rows[i]
  {
    seq(|rows|, i requires 0 <= i < |rows| =>
      if rows[i].id == storeId then
        rows[i].(name := name, updatedAt := now, prizes := Some(prizes), availablePrizesCount := TotalAvailable(prizes))
      else rows[i])
  }

  /** Saving the same edit twice at the same time leaves the rows as after the first. */
  lemma ReplaceByIdIdempotent(rows: seq<Store>, storeId: string, name: string, prizes: seq<PremioEdit>, now: int)
    ensures ReplaceById(ReplaceById(rows, storeId, name, prizes, now), storeId, name, prizes, now)
            == ReplaceById(rows, storeId, name, prizes, now)
  {
    var once := ReplaceById(rows, storeId, name, prizes, now);
    assert forall i :: 0 <= i < |rows| ==> ReplaceById(once, storeId, name, prizes, now)[i] == once[i];
  }

  /** The success message of an update. */
  function UpdatedMessage(prizes: seq<PremioEdit>): string {
    "Tienda y " + NatToString(|prizes|) + " premios actualizados exitosamente."
  }

  // ---------------------------------------------------------------- edit

  /** `data.find(store => store.id === id)`: the first row with the id. */
  function FindById(rows: seq<Store>, id: string): (r: Option<Store>)
    ensures r.None? <==> forall i :: 0 <= i < |rows| ==> rows[i].id != id
    ensures r.Some? ==> exists i :: 0 <= i < |rows| && rows[i] == r.value && rows[i].id == id &&
                                    forall j :: 0 <= j < i ==> rows[j].id != id
  {
    if rows == [] then None
    else if rows[0].id == id then Some(rows[0])
    else
      var r := FindById(rows[1..], id);
      assert forall i :: 1 <= i < |rows| ==> rows[i] == rows[1..][i - 1];
      r
  }

  /** The prizes of the store being edited in edit shape, or the message of
      the error: unlike the dialog's own load, a `prizes` member that is not an
      array is an error here. */
  function EditPrizesResult(reply: Reply<PrizesField>): (r: Result<seq<PremioEdit>, string>)
    ensures r.Success? <==>
              && reply.Answered? && reply.body.Json? && IsOk(reply.status) && reply.body.success
              && reply.body.data.Some? && reply.body.data.value.PrizeArray?
    ensures r.Success? ==> r.value == MapToEdit(reply.body.data.value.items)
    ensures reply.Answered? && reply.body.Json? && r.Failure? ==>
              r.error == OrElse(reply.body.message, EditPrizesFallback)
  {
    match reply
    case Threw(e) => Failure(e)
    case Answered(status, body) =>
      match body
      case NotJson(pe) => Failure(pe)
      case Json(success, data, message) =>
        if !IsOk(status) || !success || data.None? || data.value.NotAnArray? then
          Failure(OrElse(message, EditPrizesFallback))
        else Success(MapToEdit(data.value.items))
  }

  // ---------------------------------------------------------------- order

  datatype SortOrder = Recent | Alpha

  /** Whether `a` may come before `b`: newest first for `recent`, by name for
      `alpha`. */
  predicate Before(order: SortOrder, a: Store, b: Store) {
    match order
    case Recent => a.createdAt >= b.createdAt
    case Alpha => LexLe(a.name, b.name)
  }

  lemma BeforeTotal(order: SortOrder, a: Store, b: Store)
    ensures Before(order, a, b) || Before(order, b, a)
  {
    if order == Alpha {
      LexLeTotal(a.name, b.name);
    }
  }

  lemma BeforeTransitive(order: SortOrder, a: Store, b: Store, c: Store)
    requires Before(order, a, b) && Before(order, b, c)
    ensures Before(order, a, c)
  {
    if order == Alpha {
      LexLeTransitive(a.name, b.name, c.name);
    }
  }

  predicate SortedBy(order: SortOrder, rows: seq<Store>) {
    forall i :: 0 <= i < |rows| - 1 ==> Before(order, rows[i], rows[i + 1])
  }

  /** Inserts `x` after every row it does not strictly precede. */
  function Insert(order: SortOrder, x: Store, sorted: seq<Store>): (r: seq<Store>)
    requires SortedBy(order, sorted)
    ensures SortedBy(order, r)
    ensures multiset(r) == multiset(sorted) + multiset{x}
    ensures |r| == |sorted| + 1
    ensures r[0] == x || (sorted != [] && r[0] == sorted[0])
  {
    if sorted == [] then [x]
    else if Before(order, x, sorted[0]) && !Before(order, sorted[0], x) then [x] + sorted
    else
      var rest := Insert(order, x, sorted[1..]);
      BeforeTotal(order, x, sorted[0]);
      assert sorted == [sorted[0]] + sorted[1..];
      [sorted[0]] + rest
  }

  /** `sortedData`: an insertion sort on a copy of the rows. */
  function SortRows(order: SortOrder, rows: seq<Store>): (r: seq<Store>)
    ensures SortedBy(order, r)
    ensures multiset(r) == multiset(rows)
  {
    if rows == [] then []
    else
      assert rows == rows[..|rows| - 1] + [rows[|rows| - 1]];
      Insert(order, rows[|rows| - 1], SortRows(order, rows[..|rows| - 1]))
  }

  /** Sorted neighbours give a sorted list: every row may come before every
      later row. */
  lemma {:induction false} SortedPairwise(order: SortOrder, rows: seq<Store>)
    requires SortedBy(order, rows)
    ensures forall i, j :: 0 <= i < j < |rows| ==> Before(order, rows[i], rows[j])
  {
    if |rows| > 1 {
      var tail := rows[1..];
      assert SortedBy(order, tail) by {
        forall i | 0 <= i < |tail| - 1 ensures Before(order, tail[i], tail[i + 1]) {
          assert tail[i] == rows[i + 1] && tail[i + 1] == rows[i + 2];
        }
      }
      SortedPairwise(order, tail);
      forall i, j | 0 <= i < j < |rows| ensures Before(order, rows[i], rows[j]) {
        if i > 0 {
          assert rows[i] == tail[i - 1] && rows[j] == tail[j - 1];
        } else if j > 1 {
          assert rows[1] == tail[0] && rows[j] == tail[j - 1];
          BeforeTransitive(order, rows[0], rows[1], rows[j]);
        }
      }
    }
  }

  /** Sorting keeps the rows and their number. */
  lemma SortKeepsRows(order: SortOrder, rows: seq<Store>)
    ensures |SortRows(order, rows)| == |rows|
    ensures forall s :: s in SortRows(order, rows) <==> s in rows
  {
    var r := SortRows(order, rows);
    assert |multiset(r)| == |multiset(rows)|;
    forall s ensures s in r <==> s in rows {
      assert s in r <==> s in multiset(r);
      assert s in rows <==> s in multiset(rows);
    }
  }

  /** `Before` as an implication, for use where its premises may not hold. */
  lemma BeforeChain(order: SortOrder, a: Store, b: Store, c: Store)
    ensures Before(order, a, b) && Before(order, b, c) ==> Before(order, a, c)
  {
    if Before(order, a, b) && Before(order, b, c) {
      BeforeTransitive(order, a, b, c);
    }
  }

  /** Rows the comparator cannot tell apart: it returns 0 for them. */
  predicate Tied(order: SortOrder, a: Store, b: Store) {
    Before(order, a, b) && Before(order, b, a)
  }

  /** The rows tied with `key`, in the order they appear. */
  function TiedWith(order: SortOrder, key: Store, rows: seq<Store>): seq<Store>
    decreases |rows|
  {
    if rows == [] then []
    else (if Tied(order, key, rows[0]) then [rows[0]] else []) + TiedWith(order, key, rows[1..])
  }

  lemma {:induction false} TiedWithAppend(order: SortOrder, key: Store, a: seq<Store>, b: seq<Store>)
    ensures TiedWith(order, key, a + b) == TiedWith(order, key, a) + TiedWith(order, key, b)
    decreases |a|
  {
    if a == [] {
      assert a + b == b;
    } else {
      assert (a + b)[0] == a[0];
      assert (a + b)[1..] == a[1..] + b;
      TiedWithAppend(order, key, a[1..], b);
    }
  }

  lemma {:induction false} TiedWithNone(order: SortOrder, key: Store, rows: seq<Store>)
    requires forall k :: 0 <= k < |rows| ==> !Tied(order, key, rows[k])
    ensures TiedWith(order, key, rows) == []
    decreases |rows|
  {
    if rows != [] {
      assert forall k :: 0 <= k < |rows| - 1 ==> rows[1..][k] == rows[k + 1];
      TiedWithNone(order, key, rows[1..]);
    }
  }

  /** When `x` strictly precedes the first row of a sorted list, no row of
      that list is tied with a row tied with `x`. */
  lemma {:induction false} FrontNoneTied(order: SortOrder, key: Store, x: Store, sorted: seq<Store>)
    requires SortedBy(order, sorted) && sorted != []
    requires Before(order, x, sorted[0]) && !Before(order, sorted[0], x)
    requires Tied(order, key, x)
    ensures TiedWith(order, key, sorted) == []
  {
    SortedPairwise(order, sorted);
    forall k | 0 <= k < |sorted| ensures !Tied(order, key, sorted[k]) {
      BeforeChain(order, sorted[0], key, x);
      BeforeChain(order, sorted[0], sorted[k], key);
      assert k > 0 ==> Before(order, sorted[0], sorted[k]);
    }
    TiedWithNone(order, key, sorted);
  }

  /** The rows tied with `key` in a single row. */
  lemma TiedWithOne(order: SortOrder, key: Store, x: Store)
    ensures TiedWith(order, key, [x]) == if Tied(order, key, x) then [x] else []
  {
    assert [x][1..] == [];
  }

  /** `x` in front of the list it strictly precedes. */
  lemma InsertFrontStable(order: SortOrder, key: Store, x: Store, sorted: seq<Store>)
    requires SortedBy(order, sorted) && sorted != []
    requires Before(order, x, sorted[0]) && !Before(order, sorted[0], x)
    ensures TiedWith(order, key, [x] + sorted)
         == TiedWith(order, key, sorted) + TiedWith(order, key, [x])
  {
    TiedWithAppend(order, key, [x], sorted);
    TiedWithOne(order, key, x);
    if Tied(order, key, x) {
      FrontNoneTied(order, key, x, sorted);
    }
  }

  /** `Insert` puts `x` after every row tied with it and before every row that
      strictly follows it: among the rows tied with any `key`, `x` comes last. */
  lemma {:induction false} InsertStable(order: SortOrder, key: Store, x: Store, sorted: seq<Store>)
    requires SortedBy(order, sorted)
    ensures TiedWith(order, key, Insert(order, x, sorted))
         == TiedWith(order, key, sorted) + TiedWith(order, key, [x])
    decreases |sorted|, 1
  {
    if sorted == [] {
      assert Insert(order, x, sorted) == [x];
    } else if Before(order, x, sorted[0]) && !Before(order, sorted[0], x) {
      assert Insert(order, x, sorted) == [x] + sorted;
      InsertFrontStable(order, key, x, sorted);
    } else {
      InsertAfterStable(order, key, x, sorted);
    }
  }

  /** `x` placed after the first row, which it does not strictly precede. */
  lemma {:induction false} InsertAfterStable(order: SortOrder, key: Store, x: Store, sorted: seq<Store>)
    requires SortedBy(order, sorted) && sorted != []
    requires !(Before(order, x, sorted[0]) && !Before(order, sorted[0], x))
    ensures TiedWith(order, key, Insert(order, x, sorted))
         == TiedWith(order, key, sorted) + TiedWith(order, key, [x])
    decreases |sorted|, 0
  {
    SortedTail(order, sorted);
    InsertBehind(order, x, sorted);
    InsertStable(order, key, x, sorted[1..]);
    TiedWithBehind(order, key, x, sorted, Insert(order, x, sorted[1..]));
  }

  /** The rows tied with `key` in the first row followed by `rest`, where
      `rest` holds the rows tied with `key` of the remaining rows and of `x`. */
  lemma TiedWithBehind(order: SortOrder, key: Store, x: Store, sorted: seq<Store>, rest: seq<Store>)
    requires sorted != []
    requires TiedWith(order, key, rest) == TiedWith(order, key, sorted[1..]) + TiedWith(order, key, [x])
    ensures TiedWith(order, key, [sorted[0]] + rest)
         == TiedWith(order, key, sorted) + TiedWith(order, key, [x])
  {
    TiedWithAppend(order, key, [sorted[0]], rest);
    TiedWithAppend(order, key, [sorted[0]], sorted[1..]);
    assert sorted == [sorted[0]] + sorted[1..];
  }

  /** A row that does not strictly precede the first row goes behind it. */
  lemma InsertBehind(order: SortOrder, x: Store, sorted: seq<Store>)
    requires SortedBy(order, sorted) && sorted != [] && SortedBy(order, sorted[1..])
    requires !(Before(order, x, sorted[0]) && !Before(order, sorted[0], x))
    ensures Insert(order, x, sorted) == [sorted[0]] + Insert(order, x, sorted[1..])
  {
  }

  /** The rows after the first of a sorted list are sorted. */
  lemma SortedTail(order: SortOrder, sorted: seq<Store>)
    requires SortedBy(order, sorted) && sorted != []
    ensures SortedBy(order, sorted[1..])
  {
    var tail := sorted[1..];
    forall i | 0 <= i < |tail| - 1 ensures Before(order, tail[i], tail[i + 1]) {
      assert tail[i] == sorted[i + 1] && tail[i + 1] == sorted[i + 2];
    }
  }

  /** The sort is stable: the rows tied with any `key` keep their order. */
  lemma {:induction false} SortRowsStable(order: SortOrder, key: Store, rows: seq<Store>)
    ensures TiedWith(order, key, SortRows(order, rows)) == TiedWith(order, key, rows)
    decreases |rows|
  {
    if rows != [] {
      var init, last := rows[..|rows| - 1], rows[|rows| - 1];
      SortRowsStable(order, key, init);
      InsertStable(order, key, last, SortRows(order, init));
      assert rows == init + [last];
      TiedWithAppend(order, key, init, [last]);
    }
  }

  lemma SortRowsStableAll(order: SortOrder, rows: seq<Store>)
    ensures forall key :: TiedWith(order, key, SortRows(order, rows)) == TiedWith(order, key, rows)
  {
    forall key ensures TiedWith(order, key, SortRows(order, rows)) == TiedWith(order, key, rows) {
      SortRowsStable(order, key, rows);
    }
  }

  // ---------------------------------------------------------------- page

  /** The page's state; `sent` records every request in the order it was made. */
  class StoresPage {
    const campaign: string
    var data: seq<Store>
    var loading: bool
    var error: Option<string>
    var message: Option<string>
    var newModalOpen: bool
    var editModalOpen: bool
    var sortBy: SortOrder
    var editingLoading: bool
    var selectedStore: Option<Store>
    var sent: seq<Request>

    constructor (campaign: string)
      ensures this.campaign == campaign && data == [] && loading && error.None? && message.None?
      ensures !newModalOpen && !editModalOpen && sortBy == Recent && !editingLoading
      ensures selectedStore.None? && sent == []
    {
      this.campaign := campaign;
      data, loading, error, message := [], true, None, None;
      newModalOpen, editModalOpen, sortBy, editingLoading := false, false, Recent, false;
      selectedStore, sent := None, [];
    }

    /** `fetchData`: both lists are requested; the merged rows replace `data`,
        or the error is shown and `data` is kept. */
    method FetchData(stores: Reply<StoresField>, counts: Reply<Option<map<string, int>>>)
      modifies this`data, this`loading, this`error, this`sent
      ensures sent == old(sent) + [GetStores(campaign), GetCounts(campaign)]
      ensures !loading
      ensures LoadRows(stores, counts).Success? ==> data == LoadRows(stores, counts).value && error == old(error)
      ensures LoadRows(stores, counts).Failure? ==>
                data == old(data) && error == Some(LoadErrorPrefix + LoadRows(stores, counts).error)
    {
      loading := true;
      sent := sent + [GetStores(campaign), GetCounts(campaign)];
      var result := LoadRows(stores, counts);
      match result {
        case Success(rows) =>
          data := rows;
        case Failure(e) =>
          error := Some(LoadErrorPrefix + e);
      }
      loading := false;
    }

    /** `handleCreate`: the store is created, then its prizes; only when every
        call succeeds is the new row put first. A failure is returned to the
        caller and leaves the table as it was. */
    method HandleCreate(name: string, prizes: seq<NewPrize>, now: int,
                        storeReply: Reply<Option<string>>, prizeReplies: seq<Reply<()>>)
      returns (failure: Option<string>)
      requires |prizeReplies| == |prizes|
      modifies this`data, this`message, this`newModalOpen, this`sent
      ensures StoreCreateResult(storeReply).Failure? ==>
                && failure == Some(StoreCreateResult(storeReply).error)
                && sent == old(sent) + [PostStore(name, campaign)]
                && data == old(data) && message == old(message) && newModalOpen == old(newModalOpen)
      ensures StoreCreateResult(storeReply).Success? ==>
                sent == old(sent) + [PostStore(name, campaign)]
                        + CreatePrizeRequests(StoreCreateResult(storeReply).value, campaign, prizes)
      ensures StoreCreateResult(storeReply).Success? && JoinAll(PrizeOutcomes(prizes, prizeReplies)).Rejected? ==>
                && failure == Some(JoinAll(PrizeOutcomes(prizes, prizeReplies)).reason)
                && data == old(data) && message == old(message) && newModalOpen == old(newModalOpen)
      ensures StoreCreateResult(storeReply).Success? && JoinAll(PrizeOutcomes(prizes, prizeReplies)).Fulfilled? ==>
                && failure.None? && message == Some(CreatedMessage) && !newModalOpen
                && data == [NewStoreRow(StoreCreateResult(storeReply).value, name, campaign, now, prizes)] + old(data)
    {
      sent := sent + [PostStore(name, campaign)];
      var created := StoreCreateResult(storeReply);
      if created.Failure? {
        return Some(created.error);
      }
      var newStoreId := created.value;
      sent := sent + CreatePrizeRequests(newStoreId, campaign, prizes);
      var joined := JoinAll(PrizeOutcomes(prizes, prizeReplies));
      if joined.Rejected? {
        return Some(joined.reason);
      }
      message := Some(CreatedMessage);
      newModalOpen := false;
      data := [NewStoreRow(newStoreId, name, campaign, now, prizes)] + data;
      failure := None;
    }

    /** `handleDelete`: on success the row is deactivated locally and the
        inactive rows are dropped; otherwise the error is shown. */
    method HandleDelete(id: string, reply: Reply<()>)
      modifies this`data, this`message, this`error, this`sent
      ensures sent == old(sent) + [Deactivate(id)]
      ensures DeleteError(reply).Some? ==>
                error == DeleteError(reply) && data == old(data) && message == old(message)
      ensures DeleteError(reply).None? ==>
                && data == DeactivateLocal(old(data), id) && message == Some(DeactivatedMessage)
                && error == old(error)
    {
      sent := sent + [Deactivate(id)];
      var failed := DeleteError(reply);
      if failed.Some? {
        error := failed;
        return;
      }
      message := Some(DeactivatedMessage);
      data := DeactivateLocal(data, id);
    }

    /** `handleUpdate`, given one reply per request it sends. Without a
        selected store nothing is sent. */
    method HandleUpdate(name: string, prizes: seq<PremioEdit>, now: int, replies: seq<Reply<()>>)
      requires selectedStore.Some? ==>
                 |replies| == |UpdateRequests(selectedStore.value.id, selectedStore.value.name, name, prizes)|
      modifies this`data, this`loading, this`error, this`message, this`editModalOpen, this`sent
      ensures selectedStore.None? ==>
                && error == Some(NoSelectionError) && !editModalOpen && sent == old(sent)
                && data == old(data) && loading == old(loading) && message == old(message)
      ensures selectedStore.Some? ==>
                var reqs := UpdateRequests(selectedStore.value.id, selectedStore.value.name, name, prizes);
                var outcome := JoinAll(UpdateOutcomes(reqs, replies));
                && sent == old(sent) + reqs && !loading
                && (outcome.Rejected? ==>
                      && error == Some(SaveErrorPrefix + outcome.reason)
                      && data == old(data) && message == old(message) && editModalOpen == old(editModalOpen))
                && (outcome.Fulfilled? ==>
                      && error.None? && message == Some(UpdatedMessage(prizes)) && !editModalOpen
                      && data == ReplaceById(old(data), selectedStore.value.id, name, prizes, now))
    {
      if selectedStore.None? {
        error := Some(NoSelectionError);
        editModalOpen := false;
        return;
      }
      var storeId := selectedStore.value.id;
      loading := true;
      error := None;
      var updatePromises := BuildUpdateRequests(storeId, selectedStore.value.name, name, prizes);
      sent := sent + updatePromises;
      SettleUpdate(storeId, name, prizes, now, JoinAll(UpdateOutcomes(updatePromises, replies)));
      loading := false;
    }

    /** The part of `handleUpdate` after the requests settled. */
    method SettleUpdate(storeId: string, name: string, prizes: seq<PremioEdit>, now: int, outcome: Settled)
      modifies this`data, this`error, this`message, this`editModalOpen
      ensures outcome.Rejected? ==>
                && error == Some(SaveErrorPrefix + outcome.reason)
                && data == old(data) && message == old(message) && editModalOpen == old(editModalOpen)
      ensures outcome.Fulfilled? ==>
                && error == old(error) && message == Some(UpdatedMessage(prizes)) && !editModalOpen
                && data == ReplaceById(old(data), storeId, name, prizes, now)
    {
      if outcome.Rejected? {
        error := Some(SaveErrorPrefix + outcome.reason);
      } else {
        message := Some(UpdatedMessage(prizes));
        editModalOpen := false;
        data := ReplaceById(data, storeId, name, prizes, now);
      }
    }

    /** `handleEdit`: for a row of the table, its prizes are loaded and the
        edit dialog opens on the row carrying them; on failure the error is
        shown and the selection cleared. An unknown id does nothing. */
    method HandleEdit(itemId: string, reply: Reply<PrizesField>)
      modifies this`error, this`editingLoading, this`selectedStore, this`editModalOpen, this`sent
      ensures FindById(data, itemId).None? ==>
                && error == old(error) && editingLoading == old(editingLoading)
                && selectedStore == old(selectedStore) && editModalOpen == old(editModalOpen) && sent == old(sent)
      ensures FindById(data, itemId).Some? ==>
                && sent == old(sent) + [GetStorePrizes(FindById(data, itemId).value.id)] && !editingLoading
      ensures FindById(data, itemId).Some? && EditPrizesResult(reply).Success? ==>
                && selectedStore == Some(FindById(data, itemId).value.(prizes := Some(EditPrizesResult(reply).value)))
                && editModalOpen && error.None?
      ensures FindById(data, itemId).Some? && EditPrizesResult(reply).Failure? ==>
                && selectedStore.None? && editModalOpen == old(editModalOpen)
                && error == Some(EditErrorPrefix + EditPrizesResult(reply).error)
    {
      var fullStore := FindById(data, itemId);
      if fullStore.None? {
        return;
      }
      error := None;
      editingLoading := true;
      sent := sent + [GetStorePrizes(fullStore.value.id)];
      var result := EditPrizesResult(reply);
      match result {
        case Success(prizesForEdit) =>
          selectedStore := Some(fullStore.value.(prizes := Some(prizesForEdit)));
          editModalOpen := true;
        case Failure(e) =>
          error := Some(EditErrorPrefix + e);
          selectedStore := None;
      }
      editingLoading := false;
    }

    /** `sortedData`: the rows in the chosen order; `data` itself stays as it is. */
    function SortedData(): (r: seq<Store>)
      reads this
      ensures SortedBy(sortBy, r) && multiset(r) == multiset(data)
      ensures forall key :: TiedWith(sortBy, key, r) == TiedWith(sortBy, key, data)
    {
      SortRowsStableAll(sortBy, data);
      SortRows(sortBy, data)
    }
  }
}
