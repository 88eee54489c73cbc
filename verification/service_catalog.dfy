/** The shared service catalogue (frontend/src/context/ServiceContext.jsx): the initial
    list of salon services and the three state transitions `addService`,
    `updateService` and `deleteService` that the dashboard drives. */
module ServiceCatalog {
  import opened JsValues

  /** A price tier as JavaScript holds it: a number in the seeded catalogue and after
      the dashboard's `Number(...)` conversion, the raw input text while a form edits it. */
  datatype PriceValue = Num(n: real) | Raw(s: string)

  datatype Price = Price(basic: PriceValue, premium: PriceValue, luxury: PriceValue)

  /** A service record. The seeded services carry no `category` and no `isActive`;
      the dashboard's form carries no `id` until a service is added. */
  datatype Service = Service(
    id: Option<int>,
    title: string,
    description: string,
    icon: string,
    price: Price,
    duration: string,
    category: Option<string>,
    isActive: Option<bool>)

  /** The seeded service with the given id: prices are numbers, and there is no
      category or active flag. */
  function SeededService(id: int): (s: Service)
    requires 1 <= id <= 6
    ensures s.id == Some(id) && s.category.None? && s.isActive.None?
    ensures s.price.basic.Num? && s.price.premium.Num? && s.price.luxury.Num?
  {
    Service(Some(id), SeedTitle(id), SeedDescription(id), SeedIcon(id), SeedPrice(id),
            SeedDuration(id), None, None)
  }

  function SeedTitle(id: int): string {
    if id == 1 then "Hair Styling"
    else if id == 2 then "Manicure & Pedicure"
    else if id == 3 then "Facials & Skincare"
    else if id == 4 then "Massage Therapy"
    else if id == 5 then "Makeup Artistry"
    else "Waxing & Threading"
  }

  function SeedDescription(id: int): string {
    if id == 1 then "Professional haircuts, coloring, and styling tailored to your unique look."
    else if id == 2 then "Indulge in luxurious treatments for perfectly pampered hands and feet."
    else if id == 3 then "Rejuvenate your skin with customized facial treatments and expert skincare advice."
    else if id == 4 then "Relax and unwind with a variety of therapeutic massage techniques."
    else if id == 5 then "Flawless makeup for special occasions, bridal, or everyday enhancement."
    else "Smooth, long-lasting hair removal services for face and body."
  }

  function SeedIcon(id: int): string {
    if id == 1 then "💇‍♀️"
    else if id == 2 then "💅"
    else if id == 3 then "🧖‍♀️"
    else if id == 4 then "💆"
    else if id == 5 then "💄"
    else "✨"
  }

  function SeedPrice(id: int): Price {
    if id == 1 then Price(Num(45.0), Num(85.0), Num(120.0))
    else if id == 2 then Price(Num(35.0), Num(65.0), Num(95.0))
    else if id == 3 then Price(Num(60.0), Num(90.0), Num(150.0))
    else if id == 4 then Price(Num(70.0), Num(100.0), Num(140.0))
    else if id == 5 then Price(Num(50.0), Num(80.0), Num(120.0))
    else Price(Num(25.0), Num(45.0), Num(65.0))
  }

  function SeedDuration(id: int): string {
    if id == 1 then "1-2 hours"
    else if id == 2 || id == 4 then "1 hour"
    else if id == 3 || id == 5 then "1-1.5 hours"
    else "30-45 mins"
  }

  /** The catalogue the provider starts with: six services, ids 1 to 6 in order. */
  function InitialServices(): (r: seq<Service>)
    ensures |r| == 6
    ensures forall i :: 0 <= i < 6 ==> r[i].id == Some(i + 1) && r[i].category.None?
    ensures forall i, j :: 0 <= i < j < 6 ==> r[i].id != r[j].id
  {
    seq(6, i requires 0 <= i < 6 => SeededService(i + 1))
  }

  /** Number of entries carrying the given id. */
  function CountId(services: seq<Service>, id: Option<int>): (n: nat)
    ensures n <= |services|
  {
    if services == [] then 0
    else (if services[0].id == id then 1 else 0) + CountId(services[1..], id)
  }

  lemma {:induction false} CountIdZero(services: seq<Service>, id: Option<int>)
    ensures CountId(services, id) == 0 <==> forall i :: 0 <= i < |services| ==> services[i].id != id
  {
    if services != [] {
      CountIdZero(services[1..], id);
      assert forall i :: 1 <= i < |services| ==> services[i] == services[1..][i - 1];
    }
  }

  /** `addService`: the new service goes to the end, every earlier entry keeps its
      position, and no check is made that its id is new. */
  function AddService(services: seq<Service>, s: Service): (r: seq<Service>)
    ensures |r| == |services| + 1
    ensures r[..|services|] == services && r[|services|] == s
    ensures CountId(r, s.id) == CountId(services, s.id) + 1
  {
    CountIdAppend(services, s);
    services + [s]
  }

  lemma {:induction false} CountIdAppend(services: seq<Service>, s: Service)
    ensures CountId(services + [s], s.id) == CountId(services, s.id) + 1
  {
    if services != [] {
      assert (services + [s])[1..] == services[1..] + [s];
      CountIdAppend(services[1..], s);
    } else {
      assert ([] + [s])[1..] == [];
    }
  }

  /** `updateService`: every entry whose id equals the given service's id is replaced
      by it; all others stay as they are, in place. */
  function UpdateService(services: seq<Service>, updated: Service): (r: seq<Service>)
    ensures |r| == |services|
    ensures forall i :: 0 <= i < |r| && services[i].id == updated.id ==> r[i] == updated
    ensures forall i :: 0 <= i < |r| && services[i].id != updated.id ==> r[i] == services[i]
  {
    if services == [] then []
    else
      [if services[0].id == updated.id then updated else services[0]] + UpdateService(services[1..], updated)
  }

  /** An update with an id nobody has changes nothing. */
  lemma UpdateAbsentId(services: seq<Service>, updated: Service)
    requires forall i :: 0 <= i < |services| ==> services[i].id != updated.id
    ensures UpdateService(services, updated) == services
  {
  }

  /** Updating keeps every entry's id, so the set of ids and their positions are
      unchanged, and a second identical update changes nothing more. */
  lemma UpdateKeepsIds(services: seq<Service>, updated: Service)
    ensures forall i :: 0 <= i < |services| ==> UpdateService(services, updated)[i].id == services[i].id
    ensures UpdateService(UpdateService(services, updated), updated) == UpdateService(services, updated)
  {
  }

  /** `deleteService`: the entries with that id are dropped and the rest keep their
      relative order. */
  function DeleteService(services: seq<Service>, id: Option<int>): (r: seq<Service>)
    ensures |r| == |services| - CountId(services, id)
    ensures forall i :: 0 <= i < |r| ==> r[i].id != id
  {
    if services == [] then []
    else if services[0].id == id then DeleteService(services[1..], id)
    else [services[0]] + DeleteService(services[1..], id)
  }

  /** The survivors of a delete are exactly the entries with another id. */
  lemma {:induction false} DeleteMembers(services: seq<Service>, id: Option<int>, x: Service)
    ensures x in DeleteService(services, id) <==> x in services && x.id != id
  {
    if services != [] {
      DeleteMembers(services[1..], id, x);
      assert services == [services[0]] + services[1..];
    }
  }

  /** Deleting distributes over concatenation: the survivors of the first part come
      first, in their old order. */
  lemma {:induction false} DeleteKeepsOrder(a: seq<Service>, b: seq<Service>, id: Option<int>)
    ensures DeleteService(a + b, id) == DeleteService(a, id) + DeleteService(b, id)
  {
    if a == [] {
      assert a + b == b;
    } else {
      var ab := a + b;
      assert ab[0] == a[0];
      assert ab[1..] == a[1..] + b;
      DeleteKeepsOrder(a[1..], b, id);
      if a[0].id == id {
        assert DeleteService(ab, id) == DeleteService(a[1..] + b, id);
        assert DeleteService(a, id) == DeleteService(a[1..], id);
      } else {
        assert DeleteService(ab, id) == [a[0]] + DeleteService(a[1..] + b, id);
        assert DeleteService(a, id) == [a[0]] + DeleteService(a[1..], id);
      }
    }
  }

  /** Deleting an absent id is a no-op, so deleting twice is deleting once. */
  lemma DeleteIdempotent(services: seq<Service>, id: Option<int>)
    ensures (forall i :: 0 <= i < |services| ==> services[i].id != id) ==> DeleteService(services, id) == services
    ensures DeleteService(DeleteService(services, id), id) == DeleteService(services, id)
  {
    if forall i :: 0 <= i < |services| ==> services[i].id != id {
      DeleteAbsent(services, id);
    }
    DeleteAbsent(DeleteService(services, id), id);
  }

  lemma {:induction false} DeleteAbsent(services: seq<Service>, id: Option<int>)
    requires forall i :: 0 <= i < |services| ==> services[i].id != id
    ensures DeleteService(services, id) == services
  {
    if services != [] {
      assert services[0].id != id;
      DeleteAbsent(services[1..], id);
    }
  }

  /** `services.find(s => s.id === id)`: the first entry with that id. */
  function FindService(services: seq<Service>, id: Option<int>): (r: Option<Service>)
    ensures r.None? <==> forall i :: 0 <= i < |services| ==> services[i].id != id
    ensures r.Some? ==> exists i :: 0 <= i < |services| && services[i] == r.value
                          && r.value.id == id && forall j :: 0 <= j < i ==> services[j].id != id
  {
    if services == [] then None
    else if services[0].id == id then Some(services[0])
    else
      var r := FindService(services[1..], id);
      assert forall i :: 1 <= i < |services| ==> services[i] == services[1..][i - 1];
      if r.Some? then
        ghost var i :| 0 <= i < |services[1..]| && services[1..][i] == r.value
                       && r.value.id == id && forall j :: 0 <= j < i ==> services[1..][j].id != id;
        assert services[i + 1] == r.value;
        r
      else r
  }
}
