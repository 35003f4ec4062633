/** The store edit dialog (src/components/ui/EditStoreModal.tsx): the prizes
    of the store in edit shape, the per-prize stock edit, the running total of
    available stock, the reset when the dialog is hidden and the submit guard.
    Stock values are the already parsed numbers, as integers. */
module EditStoreModal {
  import opened Wrappers
  import opened Http

  const PrizesFallback: string := "Fallo al obtener premios de la tienda."
  /** The message of the `TypeError` raised by reading `prizes` of a missing
      `data`, in V8's wording for `undefined`. The model uses it for a `null`
      `data` too, for which V8 would write "null" in place of "undefined". */
  const MissingDataError: string := "Cannot read properties of undefined (reading 'prizes')"

  /** A prize as the back end returns it. */
  datatype Prize = Prize(
    id: string,
    name: string,
    description: string,
    initialStock: int,
    availableStock: int,
    createdAt: int)

  /** A prize in edit shape (`PremioEdit`). */
  datatype PremioEdit = PremioEdit(id: string, nombre: string, stockInicial: int, stockDisponible: int)

  /** The store the dialog edits (`StoreData`). */
  datatype StoreData = StoreData(id: string, name: string)

  /** The `prizes` member of a reply's `data`: an array, or anything else. */
  datatype PrizesField = PrizeArray(items: seq<Prize>) | NotAnArray

  /** The two editable stock fields. */
  datatype StockField = StockInicial | StockDisponible

  /** What submitting the dialog hands to its parent. */
  datatype Submission = Submission(name: string, prizes: seq<PremioEdit>)

  function ToEdit(p: Prize): PremioEdit {
    PremioEdit(p.id, p.name, p.initialStock, p.availableStock)
  }

  /** The back-end-to-edit mapping: same length and order, `name` becomes
      `nombre`, `initial_stock` becomes `stock_inicial` and `available_stock`
      becomes `stock_disponible`. */
  function MapToEdit(list: seq<Prize>): (r: seq<PremioEdit>)
    ensures |r| == |list|
    ensures forall i :: 0 <= i < |list| ==>
              && r[i].id == list[i].id && r[i].nombre == list[i].name
              && r[i].stockInicial == list[i].initialStock && r[i].stockDisponible == list[i].availableStock
  {
    seq(|list|, i requires 0 <= i < |list| => ToEdit(list[i]))
  }

  /** The mapping works element by element, so it distributes over concatenation. */
  lemma MapToEditAppend(a: seq<Prize>, b: seq<Prize>)
    ensures MapToEdit(a + b) == MapToEdit(a) + MapToEdit(b)
  {
    assert forall i :: 0 <= i < |a + b| ==> MapToEdit(a + b)[i] == (MapToEdit(a) + MapToEdit(b))[i];
  }

  /** `Array.isArray(payload.data.prizes) ? payload.data.prizes : []`, mapped. */
  function Listed(field: PrizesField): (r: seq<PremioEdit>)
    ensures field.NotAnArray? ==> r == []
    ensures field.PrizeArray? ==> r == MapToEdit(field.items)
  {
    match field
    case NotAnArray => []
    case PrizeArray(items) => MapToEdit(items)
  }

  /** What `fetchPrizes` obtains: the prizes in edit shape, or the message of
      the error it catches. */
  function FetchPrizesResult(reply: Reply<PrizesField>): (r: Result<seq<PremioEdit>, string>)
    ensures r.Success? <==>
              && reply.Answered? && IsOk(reply.status) && reply.body.Json?
              && reply.body.success && reply.body.data.Some?
    ensures r.Success? ==> r.value == Listed(reply.body.data.value)
    ensures reply.Answered? && reply.body.Json? && !(IsOk(reply.status) && reply.body.success) ==>
              r == Failure(OrElse(reply.body.message, PrizesFallback))
    ensures reply.Threw? ==> r == Failure(reply.error)
  {
    match reply
    case Threw(e) => Failure(e)
    case Answered(status, body) =>
      match body
      case NotJson(pe) => Failure(pe)
      case Json(success, data, message) =>
        if !IsOk(status) || !success then Failure(OrElse(message, PrizesFallback))
        else match data
          case None => Failure(MissingDataError)
          case Some(field) => Success(Listed(field))
  }

  /** `totalCalculado`: the sum of `stock_disponible`, added from the left as
      `reduce` does (for a number, `v || 0` is `v`). */
  function TotalAvailable(prizes: seq<PremioEdit>): int {
    if prizes == [] then 0
    else TotalAvailable(prizes[..|prizes| - 1]) + prizes[|prizes| - 1].stockDisponible
  }

  /** The total of a concatenation is the sum of the totals. */
  lemma {:induction false} TotalAppend(a: seq<PremioEdit>, b: seq<PremioEdit>)
    ensures TotalAvailable(a + b) == TotalAvailable(a) + TotalAvailable(b)
  {
    if b == [] {
      assert a + b == a;
    } else {
      assert (a + b)[..|a + b| - 1] == a + b[..|b| - 1];
      TotalAppend(a, b[..|b| - 1]);
    }
  }

  predicate NonNegativeStocks(prizes: seq<PremioEdit>) {
    forall i :: 0 <= i < |prizes| ==> prizes[i].stockInicial >= 0 && prizes[i].stockDisponible >= 0
  }

  /** With no negative stock the total is not negative. */
  lemma {:induction false} TotalNonNegative(prizes: seq<PremioEdit>)
    requires NonNegativeStocks(prizes)
    ensures TotalAvailable(prizes) >= 0
  {
    if prizes != [] {
      TotalNonNegative(prizes[..|prizes| - 1]);
    }
  }

  /** `Math.max(0, Number(value) || 0)`, given `Number(value)`: `None` stands
      for `NaN`, which falls back to 0 like 0 itself. */
  function Quantity(parsed: Option<int>): (q: int)
    ensures q >= 0
    ensures parsed.Some? && parsed.value >= 0 ==> q == parsed.value
    ensures parsed.None? || parsed.value <= 0 ==> q == 0
  {
    var n := if parsed.Some? && parsed.value != 0 then parsed.value else 0;
    if n > 0 then n else 0
  }

  function SetStock(p: PremioEdit, field: StockField, qty: int): PremioEdit {
    match field
    case StockInicial => p.(stockInicial := qty)
    case StockDisponible => p.(stockDisponible := qty)
  }

  /** The `map` of `handlePrizeChange`: exactly the chosen field of the rows
      with the given id becomes `qty`; `id`, `nombre`, the other stock field
      and every other row are kept, and so is the length. */
  function ChangeStock(prizes: seq<PremioEdit>, id: string, field: StockField, qty: int): (r: seq<PremioEdit>)
    ensures |r| == |prizes|
    ensures forall i :: 0 <= i < |prizes| && prizes[i].id != id ==> r[i] == prizes[i]
    ensures forall i :: 0 <= i < |prizes| ==> r[i].id == prizes[i].id && r[i].nombre == prizes[i].nombre
    ensures forall i :: 0 <= i < |prizes| && prizes[i].id == id ==>
              match field
              case StockInicial => r[i].stockInicial == qty && r[i].stockDisponible == prizes[i].stockDisponible
              case StockDisponible => r[i].stockDisponible == qty && r[i].stockInicial == prizes[i].stockInicial
  {
    seq(|prizes|, i requires 0 <= i < |prizes| => if prizes[i].id == id then SetStock(prizes[i], field, qty) else prizes[i])
  }

  /** The same stock edit applied twice changes nothing more. */
  lemma ChangeStockIdempotent(prizes: seq<PremioEdit>, id: string, field: StockField, qty: int)
    ensures ChangeStock(ChangeStock(prizes, id, field, qty), id, field, qty) == ChangeStock(prizes, id, field, qty)
  {
    var once := ChangeStock(prizes, id, field, qty);
    assert forall i :: 0 <= i < |prizes| ==> ChangeStock(once, id, field, qty)[i] == once[i];
  }

  /** An edit with a non-negative value keeps every stock non-negative. */
  lemma ChangeStockKeepsNonNegative(prizes: seq<PremioEdit>, id: string, field: StockField, qty: int)
    requires NonNegativeStocks(prizes) && qty >= 0
    ensures NonNegativeStocks(ChangeStock(prizes, id, field, qty))
  {
  }

  /** How many rows carry the id. */
  function CountId(prizes: seq<PremioEdit>, id: string): nat {
    if prizes == [] then 0
    else CountId(prizes[..|prizes| - 1], id) + (if prizes[|prizes| - 1].id == id then 1 else 0)
  }

  /** The available stock of the rows that carry the id. */
  function AvailableOf(prizes: seq<PremioEdit>, id: string): int {
    if prizes == [] then 0
    else AvailableOf(prizes[..|prizes| - 1], id)
         + (if prizes[|prizes| - 1].id == id then prizes[|prizes| - 1].stockDisponible else 0)
  }

  /** Editing `stock_inicial` leaves the total as it was; editing
      `stock_disponible` replaces the available stock of the rows with that id,
      each by `qty`. */
  lemma {:induction false} TotalAfterChange(prizes: seq<PremioEdit>, id: string, field: StockField, qty: int)
    ensures field == StockInicial ==> TotalAvailable(ChangeStock(prizes, id, field, qty)) == TotalAvailable(prizes)
    ensures field == StockDisponible ==>
              TotalAvailable(ChangeStock(prizes, id, field, qty))
              == TotalAvailable(prizes) - AvailableOf(prizes, id) + qty * CountId(prizes, id)
  {
    if prizes != [] {
      var init := prizes[..|prizes| - 1];
      var r := ChangeStock(prizes, id, field, qty);
      assert r[..|r| - 1] == ChangeStock(init, id, field, qty);
      TotalAfterChange(init, id, field, qty);
    }
  }

  /** The dialog's state. */
  class Modal {
    var name: string
    var prizes: seq<PremioEdit>
    var loading: bool
    var fetchError: Option<string>

    constructor ()
      ensures name == "" && prizes == [] && !loading && fetchError.None?
    {
      name, prizes, loading, fetchError := "", [], false, None;
    }

    /** The effect that runs when `data` or `show` changes: hidden or without
        data it empties the prizes and clears the error (the name and
        `loading` stay); otherwise it takes the store's name, loads its prizes
        and ends with `loading` off. The load is modelled as completed. */
    method Sync(show: bool, data: Option<StoreData>, reply: Reply<PrizesField>)
      modifies this
      ensures data.None? || !show ==>
                prizes == [] && fetchError.None? && name == old(name) && loading == old(loading)
      ensures data.Some? && show ==> name == data.value.name && !loading
      ensures data.Some? && show && FetchPrizesResult(reply).Success? ==>
                prizes == FetchPrizesResult(reply).value && fetchError.None?
      ensures data.Some? && show && FetchPrizesResult(reply).Failure? ==>
                prizes == old(prizes) && fetchError == Some(FetchPrizesResult(reply).error)
    {
      if data.None? || !show {
        prizes := [];
        fetchError := None;
        return;
      }
      name := data.value.name;
      loading := true;
      fetchError := None;
      var result := FetchPrizesResult(reply);
      match result {
        case Success(mapped) =>
          prizes := mapped;
        case Failure(e) =>
          fetchError := Some(e);
      }
      loading := false;
    }

    /** `handlePrizeChange`, given `Number(value)`. */
    method HandlePrizeChange(id: string, field: StockField, parsed: Option<int>)
      modifies this`prizes
      ensures prizes == ChangeStock(old(prizes), id, field, Quantity(parsed))
    {
      var qty := Quantity(parsed);
      prizes := ChangeStock(prizes, id, field, qty);
    }

    /** `handleSubmit`: nothing without data, otherwise exactly the current
        name and prizes go to the parent. */
    method HandleSubmit(data: Option<StoreData>) returns (submitted: Option<Submission>)
      ensures data.None? <==> submitted.None?
      ensures submitted.Some? ==> submitted.value.name == name && submitted.value.prizes == prizes
    {
      if data.None? {
        return None;
      }
      submitted := Some(Submission(name, prizes));
    }
  }
}
