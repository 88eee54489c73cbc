/** The provider's dashboard (frontend/src/components/Dashboard.jsx): appointment
    status changes, the business-hours and business-information records, the
    add/edit/update form for services, and the service list grouped by category.

    `Date.now()` (the id of a new service) and `Number(...)` (price parsing) are
    inputs; `window.confirm` before a delete is left to the caller. */
module Dashboard {
  import opened JsValues
  import opened ServiceCatalog

  // ---------------------------------------------------------------------------
  // Appointments

  /** An appointment as the dashboard lists it. */
  datatype Appointment = Appointment(
    id: int, date: string, service: string, customerName: string,
    phone: string, notes: string, status: string)

  /** `handleAppointmentStatus`: every entry with the given id gets the new status;
      nothing else changes. */
  function SetAppointmentStatus(apts: seq<Appointment>, id: int, status: string): (r: seq<Appointment>)
    ensures |r| == |apts|
    ensures forall i :: 0 <= i < |r| && apts[i].id == id ==> r[i] == apts[i].(status := status)
    ensures forall i :: 0 <= i < |r| && apts[i].id != id ==> r[i] == apts[i]
  {
    seq(|apts|, i requires 0 <= i < |apts| => if apts[i].id == id then apts[i].(status := status) else apts[i])
  }

  /** Changing a status twice keeps only the second choice, and a status change on
      one appointment commutes with a change on another. */
  lemma StatusLastWriteWins(apts: seq<Appointment>, id: int, s1: string, s2: string)
    ensures SetAppointmentStatus(SetAppointmentStatus(apts, id, s1), id, s2) == SetAppointmentStatus(apts, id, s2)
  {
  }

  lemma StatusChangesCommute(apts: seq<Appointment>, id1: int, s1: string, id2: int, s2: string)
    requires id1 != id2
    ensures SetAppointmentStatus(SetAppointmentStatus(apts, id1, s1), id2, s2)
         == SetAppointmentStatus(SetAppointmentStatus(apts, id2, s2), id1, s1)
  {
  }

  // ---------------------------------------------------------------------------
  // Business hours and business information

  datatype Day = Monday | Tuesday | Wednesday | Thursday | Friday | Saturday | Sunday

  datatype DayHours = DayHours(open: string, close: string, isOpen: bool)

  type Hours = map<Day, DayHours>

  /** One change from the hours panel: an opening time, a closing time, or the
      open-that-day box. */
  datatype HoursEdit = SetOpen(open: string) | SetClose(close: string) | SetIsOpen(isOpen: bool)

  /** The hours the dashboard starts with: weekdays 09:00 to 17:00, Saturday 10:00 to
      15:00, Sunday closed. Every day of the week has an entry. */
  function InitialHours(): (h: Hours)
    ensures forall d: Day :: d in h && (h[d].isOpen <==> d != Sunday)
  {
    var weekday := DayHours("09:00", "17:00", true);
    map d: Day | d in AllDays() ::
      if d == Saturday then DayHours("10:00", "15:00", true)
      else if d == Sunday then DayHours("", "", false)
      else weekday
  }

  function AllDays(): (days: set<Day>)
    ensures forall d: Day :: d in days
  {
    var days := {Monday, Tuesday, Wednesday, Thursday, Friday, Saturday, Sunday};
    assert forall d: Day :: d in days by {
      forall d: Day ensures d in days {
        assert d.Monday? || d.Tuesday? || d.Wednesday? || d.Thursday? || d.Friday? || d.Saturday? || d.Sunday?;
      }
    }
    days
  }

  function ApplyHoursEdit(h: DayHours, edit: HoursEdit): DayHours {
    match edit
    case SetOpen(t) => h.(open := t)
    case SetClose(t) => h.(close := t)
    case SetIsOpen(b) => h.(isOpen := b)
  }

  /** `handleBusinessHoursChange(day, field, value)`: exactly that field of that day
      changes. The panel only offers days the record already has. */
  function SetHours(hours: Hours, day: Day, edit: HoursEdit): (r: Hours)
    requires day in hours
    ensures r.Keys == hours.Keys
    ensures forall d :: d in hours && d != day ==> r[d] == hours[d]
    ensures edit.SetOpen? ==> r[day] == DayHours(edit.open, hours[day].close, hours[day].isOpen)
    ensures edit.SetClose? ==> r[day] == DayHours(hours[day].open, edit.close, hours[day].isOpen)
    ensures edit.SetIsOpen? ==> r[day] == DayHours(hours[day].open, hours[day].close, edit.isOpen)
  {
    hours[day := ApplyHoursEdit(hours[day], edit)]
  }

  /** Edits to different days, or to different fields of one day, commute. */
  lemma HoursEditsCommute(hours: Hours, d1: Day, e1: HoursEdit, d2: Day, e2: HoursEdit)
    requires d1 in hours && d2 in hours
    requires d1 != d2 || e1.SetOpen? != e2.SetOpen? || e1.SetClose? != e2.SetClose?
    ensures SetHours(SetHours(hours, d1, e1), d2, e2) == SetHours(SetHours(hours, d2, e2), d1, e1)
  {
  }

  datatype BusinessInfo = BusinessInfo(name: string, address: string, phone: string, email: string)

  datatype InfoField = NameField | AddressField | PhoneField | EmailField

  const InitialInfo := BusinessInfo("Glamour", "123 Main St, Anytown, PK", "123-456-7890", "glamour@gmail.com")

  function InfoValue(info: BusinessInfo, field: InfoField): string {
    match field
    case NameField => info.name
    case AddressField => info.address
    case PhoneField => info.phone
    case EmailField => info.email
  }

  /** `handleBusinessInfoChange(field, value)`: that field takes the value, the others
      keep theirs. */
  function SetInfo(info: BusinessInfo, field: InfoField, value: string): (r: BusinessInfo)
    ensures InfoValue(r, field) == value
    ensures forall f :: f != field ==> InfoValue(r, f) == InfoValue(info, f)
  {
    match field
    case NameField => info.(name := value)
    case AddressField => info.(address := value)
    case PhoneField => info.(phone := value)
    case EmailField => info.(email := value)
  }

  /** The record is determined by its four fields, so writing back a field's own
      value changes nothing and a second write to a field replaces the first. */
  lemma InfoExtensional(a: BusinessInfo, b: BusinessInfo)
    requires forall f :: InfoValue(a, f) == InfoValue(b, f)
    ensures a == b
  {
    assert InfoValue(a, NameField) == InfoValue(b, NameField);
    assert InfoValue(a, AddressField) == InfoValue(b, AddressField);
    assert InfoValue(a, PhoneField) == InfoValue(b, PhoneField);
    assert InfoValue(a, EmailField) == InfoValue(b, EmailField);
  }

  lemma SetInfoLaws(info: BusinessInfo, field: InfoField, v1: string, v2: string)
    ensures SetInfo(info, field, InfoValue(info, field)) == info
    ensures SetInfo(SetInfo(info, field, v1), field, v2) == SetInfo(info, field, v2)
  {
    InfoExtensional(SetInfo(info, field, InfoValue(info, field)), info);
    InfoExtensional(SetInfo(SetInfo(info, field, v1), field, v2), SetInfo(info, field, v2));
  }

  // ---------------------------------------------------------------------------
  // The service form

  const DefaultIcon := "💇‍♀️"
  const DefaultCategory := "hair"

  /** The empty form the dashboard starts with and returns to after every add,
      update or cancelled edit. */
  function BlankForm(): (f: Service)
    ensures f.id.None? && f.icon == DefaultIcon && f.category == Some(DefaultCategory) && f.isActive == Some(true)
  {
    Service(None, "", "", DefaultIcon, Price(Raw(""), Raw(""), Raw("")), "", Some(DefaultCategory), Some(true))
  }

  /** A form value is falsy in JavaScript when it is missing or empty. */
  predicate Blank(v: Option<string>) {
    v.None? || v.value == []
  }

  /** The service `handleAddService` builds from the form: the given id, numeric
      prices, and the default icon, category and active flag where the form has none. */
  function ServiceToAdd(form: Service, now: int, toNumber: PriceValue -> real): (s: Service)
    ensures s.id == Some(now)
    ensures s.title == form.title && s.description == form.description && s.duration == form.duration
    ensures s.price == Price(Num(toNumber(form.price.basic)), Num(toNumber(form.price.premium)), Num(toNumber(form.price.luxury)))
    ensures s.icon == if form.icon == [] then DefaultIcon else form.icon
    ensures s.category == if Blank(form.category) then Some(DefaultCategory) else form.category
    ensures s.isActive == if form.isActive.None? then Some(true) else form.isActive
  {
    Service(
      Some(now), form.title, form.description,
      if form.icon == [] then DefaultIcon else form.icon,
      Price(Num(toNumber(form.price.basic)), Num(toNumber(form.price.premium)), Num(toNumber(form.price.luxury))),
      form.duration,
      if Blank(form.category) then Some(DefaultCategory) else form.category,
      if form.isActive.None? then Some(true) else form.isActive)
  }

  /** The dashboard's catalogue and form together. `editing` is the service being
      edited, if any. */
  datatype FormState = FormState(services: seq<Service>, form: Service, editing: Option<Service>)

  /** `handleAddService`: the completed service is appended and the form is reset. */
  function HandleAddService(st: FormState, now: int, toNumber: PriceValue -> real): (r: FormState)
    ensures r.services == AddService(st.services, ServiceToAdd(st.form, now, toNumber))
    ensures r.form == BlankForm() && r.editing == st.editing
  {
    FormState(AddService(st.services, ServiceToAdd(st.form, now, toNumber)), BlankForm(), st.editing)
  }

  /** `handleEditService`: the form is loaded with the chosen service, id included. */
  function HandleEditService(st: FormState, service: Service): (r: FormState)
    ensures r.form == service && r.editing == Some(service) && r.services == st.services
  {
    FormState(st.services, service, Some(service))
  }

  /** One change typed into the service form. */
  datatype FormEdit =
    | EditTitle(title: string)
    | EditDescription(description: string)
    | EditCategory(category: string)
    | EditBasic(basic: string)
    | EditPremium(premium: string)
    | EditLuxury(luxury: string)
    | EditDuration(duration: string)
    | EditActive(isActive: bool)

  /** A form edit replaces one field with the raw input value; the id is never an
      input, so it is kept. */
  function ApplyFormEdit(form: Service, edit: FormEdit): (r: Service)
    ensures r.id == form.id && r.icon == form.icon
  {
    match edit
    case EditTitle(t) => form.(title := t)
    case EditDescription(d) => form.(description := d)
    case EditCategory(c) => form.(category := Some(c))
    case EditBasic(v) => form.(price := form.price.(basic := Raw(v)))
    case EditPremium(v) => form.(price := form.price.(premium := Raw(v)))
    case EditLuxury(v) => form.(price := form.price.(luxury := Raw(v)))
    case EditDuration(d) => form.(duration := d)
    case EditActive(b) => form.(isActive := Some(b))
  }

  function ApplyFormEdits(form: Service, edits: seq<FormEdit>): Service
    decreases |edits|
  {
    if edits == [] then form else ApplyFormEdits(ApplyFormEdit(form, edits[0]), edits[1..])
  }

  /** However many edits are typed, the form keeps the id it was loaded with. */
  lemma {:induction false} EditsKeepId(form: Service, edits: seq<FormEdit>)
    ensures ApplyFormEdits(form, edits).id == form.id
    decreases |edits|
  {
    if edits != [] {
      EditsKeepId(ApplyFormEdit(form, edits[0]), edits[1..]);
    }
  }

  /** `handleUpdateService`: the form replaces the entries with its id, editing ends
      and the form is reset. */
  function HandleUpdateService(st: FormState): (r: FormState)
    ensures r.services == UpdateService(st.services, st.form)
    ensures r.form == BlankForm() && r.editing.None?
  {
    FormState(UpdateService(st.services, st.form), BlankForm(), None)
  }

  /** The cancel button: editing ends and the form is reset; the catalogue stays. */
  function CancelEdit(st: FormState): (r: FormState)
    ensures r.services == st.services && r.form == BlankForm() && r.editing.None?
  {
    FormState(st.services, BlankForm(), None)
  }

  /** Edit, type, update: the catalogue keeps its length and its ids, the edited
      service takes its place, and every service with another id is untouched. */
  lemma EditThenUpdate(st: FormState, i: int, edits: seq<FormEdit>)
    requires 0 <= i < |st.services|
    ensures var st1 := HandleEditService(st, st.services[i]);
      var st2 := st1.(form := ApplyFormEdits(st1.form, edits));
      var r := HandleUpdateService(st2);
      && |r.services| == |st.services|
      && r.services[i] == ApplyFormEdits(st.services[i], edits)
      && (forall k :: 0 <= k < |st.services| ==> r.services[k].id == st.services[k].id)
      && (forall k :: 0 <= k < |st.services| && st.services[k].id != st.services[i].id ==> r.services[k] == st.services[k])
      && r.form == BlankForm()
  {
    EditsKeepId(st.services[i], edits);
  }

  // ---------------------------------------------------------------------------
  // Services grouped by category

  datatype Category = Category(id: string, name: string, icon: string)

  /** The six categories, in display order. */
  function Categories(): (cs: seq<Category>)
    ensures |cs| == 6
  {
    [Category("hair", "Hair Services", "💇‍♀️"), Category("nails", "Nail Services", "💅"),
     Category("skin", "Skin Care", "🧖‍♀️"), Category("massage", "Massage", "💆"),
     Category("makeup", "Makeup", "💄"), Category("other", "Other Services", "✨")]
  }

  /** `services.filter(service => service.category === id)`. */
  function InCategory(services: seq<Service>, id: string): (r: seq<Service>)
    ensures |r| <= |services|
    ensures forall k :: 0 <= k < |r| ==> r[k].category == Some(id)
  {
    if services == [] then []
    else
      var rest := InCategory(services[1..], id);
      if services[0].category == Some(id) then [services[0]] + rest else rest
  }

  /** The filter keeps exactly the services of that category. */
  lemma {:induction false} InCategoryMembers(services: seq<Service>, id: string, s: Service)
    ensures s in InCategory(services, id) <==> s in services && s.category == Some(id)
  {
    if services != [] {
      InCategoryMembers(services[1..], id, s);
      assert services == [services[0]] + services[1..];
    }
  }

  datatype Group = Group(category: Category, members: seq<Service>)

  /** The "Existing Services" list: one group per category that has services, in
      category order; a category with none is skipped. */
  function GroupByCategory(cats: seq<Category>, services: seq<Service>): (gs: seq<Group>)
    ensures |gs| <= |cats|
    // every group is a category of the list with exactly its services, at least one
    ensures forall g :: g in gs ==>
      g.category in cats && g.members == InCategory(services, g.category.id) && g.members != []
    // and every category of the list that has services gets its group
    ensures forall k :: 0 <= k < |cats| && InCategory(services, cats[k].id) != [] ==>
      Group(cats[k], InCategory(services, cats[k].id)) in gs
  {
    if cats == [] then []
    else
      var members := InCategory(services, cats[0].id);
      var rest := GroupByCategory(cats[1..], services);
      assert forall k :: 1 <= k < |cats| ==> cats[k] == cats[1..][k - 1];
      if members == [] then rest else [Group(cats[0], members)] + rest
  }

  /** `a` comes before `b` in the category list. */
  predicate Before(cats: seq<Category>, a: Category, b: Category) {
    exists p, q :: 0 <= p < q < |cats| && cats[p] == a && cats[q] == b
  }

  predicate FollowsOrder(cats: seq<Category>, gs: seq<Group>) {
    forall i, j :: 0 <= i < j < |gs| ==> Before(cats, gs[i].category, gs[j].category)
  }

  lemma BeforeInTail(cats: seq<Category>, a: Category, b: Category)
    requires cats != [] && Before(cats[1..], a, b)
    ensures Before(cats, a, b)
  {
    var p, q :| 0 <= p < q < |cats[1..]| && cats[1..][p] == a && cats[1..][q] == b;
    assert cats[p + 1] == a && cats[q + 1] == b;
  }

  lemma HeadBefore(cats: seq<Category>, b: Category)
    requires cats != [] && b in cats[1..]
    ensures Before(cats, cats[0], b)
  {
    var q :| 0 <= q < |cats[1..]| && cats[1..][q] == b;
    assert cats[q + 1] == b;
  }

  lemma OrderInTail(cats: seq<Category>, gs: seq<Group>)
    requires cats != [] && FollowsOrder(cats[1..], gs)
    ensures FollowsOrder(cats, gs)
  {
    forall i, j | 0 <= i < j < |gs| ensures Before(cats, gs[i].category, gs[j].category) {
      BeforeInTail(cats, gs[i].category, gs[j].category);
    }
  }

  lemma OrderWithHead(cats: seq<Category>, g: Group, gs: seq<Group>)
    requires cats != [] && g.category == cats[0]
    requires FollowsOrder(cats[1..], gs)
    requires forall h :: h in gs ==> h.category in cats[1..]
    ensures FollowsOrder(cats, [g] + gs)
  {
    OrderInTail(cats, gs);
    var all := [g] + gs;
    forall i, j | 0 <= i < j < |all| ensures Before(cats, all[i].category, all[j].category) {
      PairWithHead(cats, g, gs, i, j);
    }
  }

  lemma PairWithHead(cats: seq<Category>, g: Group, gs: seq<Group>, i: int, j: int)
    requires cats != [] && g.category == cats[0]
    requires FollowsOrder(cats, gs)
    requires forall h :: h in gs ==> h.category in cats[1..]
    requires 0 <= i < j < |gs| + 1
    ensures Before(cats, ([g] + gs)[i].category, ([g] + gs)[j].category)
  {
    var all := [g] + gs;
    assert all[j] == gs[j - 1];
    if i == 0 {
      assert gs[j - 1] in gs;
      HeadBefore(cats, gs[j - 1].category);
    } else {
      assert all[i] == gs[i - 1];
    }
  }

  /** The groups appear in the order of their categories in the list. */
  lemma {:induction false} GroupsFollowCategoryOrder(cats: seq<Category>, services: seq<Service>)
    ensures FollowsOrder(cats, GroupByCategory(cats, services))
  {
    if cats != [] {
      var rest := GroupByCategory(cats[1..], services);
      GroupsFollowCategoryOrder(cats[1..], services);
      if InCategory(services, cats[0].id) == [] {
        OrderInTail(cats, rest);
      } else {
        OrderWithHead(cats, Group(cats[0], InCategory(services, cats[0].id)), rest);
      }
    }
  }

  /** With distinct category ids, as the dashboard's list has, no category is shown
      twice. */
  lemma GroupsDistinct(cats: seq<Category>, services: seq<Service>)
    requires forall p, q :: 0 <= p < q < |cats| ==> cats[p].id != cats[q].id
    ensures var gs := GroupByCategory(cats, services);
      forall i, j :: 0 <= i < j < |gs| ==> gs[i].category != gs[j].category
  {
    GroupsFollowCategoryOrder(cats, services);
  }

  lemma CategoriesDistinct()
    ensures forall p, q :: 0 <= p < q < |Categories()| ==> Categories()[p].id != Categories()[q].id
  {
  }

  predicate ListedUnder(gs: seq<Group>, s: Service, c: Category) {
    exists g :: g in gs && g.category == c && s in g.members
  }

  /** A service is listed under a category of the list exactly when its `category`
      is that category's id. */
  lemma {:induction false} ListedIff(cats: seq<Category>, services: seq<Service>, s: Service, c: Category)
    requires c in cats
    ensures ListedUnder(GroupByCategory(cats, services), s, c) <==> s in services && s.category == Some(c.id)
  {
    var gs := GroupByCategory(cats, services);
    InCategoryMembers(services, cats[0].id, s);
    if cats[0] == c {
      if s in services && s.category == Some(c.id) {
        assert gs[0] == Group(c, InCategory(services, c.id));
      }
    }
    if c in cats[1..] {
      ListedIff(cats[1..], services, s, c);
    }
    if ListedUnder(gs, s, c) {
      var g :| g in gs && g.category == c && s in g.members;
      if g !in GroupByCategory(cats[1..], services) {
        assert g == Group(cats[0], InCategory(services, cats[0].id));
      } else {
        ListedIff(cats[1..], services, s, c);
      }
    }
  }

  /** A service whose category is none of the ids is listed nowhere: that is the fate
      of every service of the starting catalogue, which has no category at all. */
  lemma {:induction false} UncategorisedUnlisted(cats: seq<Category>, services: seq<Service>, s: Service)
    requires forall k :: 0 <= k < |cats| ==> s.category != Some(cats[k].id)
    ensures forall g :: g in GroupByCategory(cats, services) ==> s !in g.members
  {
    forall g | g in GroupByCategory(cats, services) ensures s !in g.members {
      if s in g.members {
        ListedIff(cats, services, s, g.category);
      }
    }
  }

  lemma {:induction false} NoCategoryNoGroups(cats: seq<Category>, services: seq<Service>)
    requires forall k :: 0 <= k < |services| ==> services[k].category.None?
    ensures GroupByCategory(cats, services) == []
  {
    if cats != [] {
      NoCategoryNoGroups(cats[1..], services);
      if InCategory(services, cats[0].id) != [] {
        var s := InCategory(services, cats[0].id)[0];
        InCategoryMembers(services, cats[0].id, s);
      }
    }
  }

  /** On the starting catalogue the grouped list is empty. */
  lemma InitialCatalogueUngrouped()
    ensures GroupByCategory(Categories(), InitialServices()) == []
  {
    NoCategoryNoGroups(Categories(), InitialServices());
  }

  /** A service added through the form with no category chosen is filed under
      "hair". */
  lemma AddedServiceListed(st: FormState, now: int, toNumber: PriceValue -> real)
    requires Blank(st.form.category)
    ensures var r := HandleAddService(st, now, toNumber);
      ListedUnder(GroupByCategory(Categories(), r.services), ServiceToAdd(st.form, now, toNumber), Categories()[0])
  {
    var r := HandleAddService(st, now, toNumber);
    var s := ServiceToAdd(st.form, now, toNumber);
    assert s in r.services by { assert r.services[|st.services|] == s; }
    assert Categories()[0].id == DefaultCategory;
    ListedIff(Categories(), r.services, s, Categories()[0]);
  }
}
