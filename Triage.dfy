/** triage-data-supabase.js: the triage board's records, converted between
    the database row and the shape the page uses. A page object is a map
    from key to value, a missing key being `undefined`; rows are records.
    The database calls are left out, and what they answer (the id a
    category name resolves to, the error of an insert) is passed in, as is
    the ISO text of the dates. */
module Triage {
  import opened Common
  import opened Text

  /** A JavaScript value as these functions see it. */
  datatype Value = Undefined | Null | Text(s: string) | Flag(b: bool)

  predicate Truthy(v: Value) {
    match v
    case Undefined => false
    case Null => false
    case Text(s) => s != ""
    case Flag(b) => b
  }

  /** `v || ''`. */
  function OrEmpty(v: Value): (r: Value)
    ensures Truthy(v) ==> r == v
    ensures !Truthy(v) ==> r == Text("")
  {
    if Truthy(v) then v else Text("")
  }

  /** `v || null`. */
  function OrNull(v: Value): (r: Value)
    ensures Truthy(v) ==> r == v
    ensures !Truthy(v) ==> r == Null
  {
    if Truthy(v) then v else Null
  }

  /** `!!v`. */
  function AsFlag(v: Value): (r: Value)
    ensures r.Flag? && (r.b <==> Truthy(v))
  {
    Flag(Truthy(v))
  }

  /** The keys of an entry in the page's shape. */
  datatype Key =
    | id | clientName | businessName | clientPhone | clientEmail | description | importance
    | assignedTo | assigned_to_id | status | deadline | notes | category | category_id
    | confirmation1 | confirmation2 | confirmation3
    | createdBy | createdByEmail | created_by_id | createdAt | updatedAt | archivedAt

  /** A page object, possibly partial. */
  type PageObject = map<Key, Value>

  /** `t.key`. */
  function Get(t: PageObject, k: Key): (r: Value)
    ensures k !in t ==> r == Undefined
  {
    if k in t then t[k] else Undefined
  }

  // ---------------------------------------------------------------------
  // mapEntry (triage-data-supabase.js:100-126)

  /** A `triage_entries` row as the query returns it, with the names it
      joins in; a column the row lacks is `Undefined`. */
  datatype DbRow = DbRow(
    id: Value, client_name: Value, business_name: Value, client_phone: Value, client_email: Value,
    description: Value, importance: Value, assigned_to_id: Value, status: Value, deadline: Value,
    notes: Value, category_id: Value, confirmation1: Value, confirmation2: Value, confirmation3: Value,
    created_by_id: Value, created_at: Value, updated_at: Value, archived_at: Value,
    assigned_to_name: Value, created_by_name: Value, created_by_email: Value, category_name: Value)

  /** An entry in the page's shape. */
  datatype Entry = Entry(
    id: Value, clientName: Value, businessName: Value, clientPhone: Value, clientEmail: Value,
    description: Value, importance: Value, assignedTo: Value, assigned_to_id: Value, status: Value,
    deadline: Value, notes: Value, category: Value, category_id: Value,
    confirmation1: Value, confirmation2: Value, confirmation3: Value,
    createdBy: Value, createdByEmail: Value, created_by_id: Value,
    createdAt: Value, updatedAt: Value, archivedAt: Value)

  /** A value defaulted to `''`: never `undefined` or `null`. */
  predicate TextOrEmpty(v: Value) {
    Truthy(v) || v == Text("")
  }

  /** A value defaulted to `null`: never `undefined` or `''`. */
  predicate PresentOrNull(v: Value) {
    Truthy(v) || v == Null
  }

  /** `mapEntry(row)`. The page never sees `undefined` or `null` for the
      optional texts (business name, phone, email, assignee, deadline,
      notes, category, creator name and email), never `undefined` or `''`
      for the optional ids and the archive time, and sees booleans for the
      confirmations; the other fields are copied. */
  function MapEntry(row: DbRow): (e: Entry)
    ensures e.id == row.id && e.clientName == row.client_name && e.description == row.description
    ensures e.importance == row.importance && e.status == row.status && e.created_by_id == row.created_by_id
    ensures e.createdAt == row.created_at && e.updatedAt == row.updated_at
    ensures TextOrEmpty(e.businessName) && TextOrEmpty(e.clientPhone) && TextOrEmpty(e.clientEmail)
    ensures TextOrEmpty(e.assignedTo) && TextOrEmpty(e.deadline) && TextOrEmpty(e.notes)
    ensures TextOrEmpty(e.category) && TextOrEmpty(e.createdBy) && TextOrEmpty(e.createdByEmail)
    ensures PresentOrNull(e.assigned_to_id) && PresentOrNull(e.category_id) && PresentOrNull(e.archivedAt)
    ensures e.confirmation1.Flag? && e.confirmation2.Flag? && e.confirmation3.Flag?
  {
    Entry(
      id := row.id,
      clientName := row.client_name,
      businessName := OrEmpty(row.business_name),
      clientPhone := OrEmpty(row.client_phone),
      clientEmail := OrEmpty(row.client_email),
      description := row.description,
      importance := row.importance,
      assignedTo := OrEmpty(row.assigned_to_name),
      assigned_to_id := OrNull(row.assigned_to_id),
      status := row.status,
      deadline := OrEmpty(row.deadline),
      notes := OrEmpty(row.notes),
      category := OrEmpty(row.category_name),
      category_id := OrNull(row.category_id),
      confirmation1 := AsFlag(row.confirmation1),
      confirmation2 := AsFlag(row.confirmation2),
      confirmation3 := AsFlag(row.confirmation3),
      createdBy := OrEmpty(row.created_by_name),
      createdByEmail := OrEmpty(row.created_by_email),
      created_by_id := row.created_by_id,
      createdAt := row.created_at,
      updatedAt := row.updated_at,
      archivedAt := OrNull(row.archived_at))
  }

  /** Every value the row has (truthy) reaches the page unchanged, and a
      confirmation is true exactly when the row's is truthy. */
  lemma MapEntryKeepsPresentValues(row: DbRow)
    ensures var e := MapEntry(row);
      && (Truthy(row.business_name) ==> e.businessName == row.business_name)
      && (Truthy(row.client_phone) ==> e.clientPhone == row.client_phone)
      && (Truthy(row.client_email) ==> e.clientEmail == row.client_email)
      && (Truthy(row.assigned_to_name) ==> e.assignedTo == row.assigned_to_name)
      && (Truthy(row.deadline) ==> e.deadline == row.deadline)
      && (Truthy(row.notes) ==> e.notes == row.notes)
      && (Truthy(row.category_name) ==> e.category == row.category_name)
      && (Truthy(row.created_by_name) ==> e.createdBy == row.created_by_name)
      && (Truthy(row.created_by_email) ==> e.createdByEmail == row.created_by_email)
      && (Truthy(row.assigned_to_id) ==> e.assigned_to_id == row.assigned_to_id)
      && (Truthy(row.category_id) ==> e.category_id == row.category_id)
      && (Truthy(row.archived_at) ==> e.archivedAt == row.archived_at)
      && (e.confirmation1.b <==> Truthy(row.confirmation1))
      && (e.confirmation2.b <==> Truthy(row.confirmation2))
      && (e.confirmation3.b <==> Truthy(row.confirmation3))
  {
  }

  /** The row an entry in the page's shape comes from, its names in the
      joined columns. */
  function RowOf(e: Entry): DbRow {
    DbRow(
      e.id, e.clientName, e.businessName, e.clientPhone, e.clientEmail,
      e.description, e.importance, e.assigned_to_id, e.status, e.deadline,
      e.notes, e.category_id, e.confirmation1, e.confirmation2, e.confirmation3,
      e.created_by_id, e.createdAt, e.updatedAt, e.archivedAt,
      e.assignedTo, e.createdBy, e.createdByEmail, e.category)
  }

  /** Mapping an entry's own values back into a row and through `mapEntry`
      again gives the same entry. */
  lemma MapEntryIdempotent(row: DbRow)
    ensures var e := MapEntry(row);
      MapEntry(RowOf(e)) == e
  {
  }

  // ---------------------------------------------------------------------
  // createTriage (triage-data-supabase.js:209-238)

  /** `(v || '').trim()` for a text value. */
  function TrimmedName(v: Value): string {
    if v.Text? then Trim(v.s) else ""
  }

  /** The category id of a new entry: the given `category_id`, else the id
      the trimmed category name resolves to (created if missing; the
      answer is `resolved`), else `null`. */
  function CreateCategoryId(t: PageObject, resolved: Value): (r: Value)
    ensures Truthy(Get(t, Key.category_id)) ==> r == Get(t, Key.category_id)
    ensures !Truthy(Get(t, Key.category_id)) && TrimmedName(Get(t, Key.category)) != "" ==> r == resolved
    ensures !Truthy(Get(t, Key.category_id)) && TrimmedName(Get(t, Key.category)) == "" ==> r == Null
  {
    var cid := OrNull(Get(t, Key.category_id));
    if !Truthy(cid) && TrimmedName(Get(t, Key.category)) != "" then resolved else cid
  }

  /** The row `createTriage` inserts. */
  datatype NewRow = NewRow(
    client_name: Value, business_name: Value, client_phone: Value, client_email: Value,
    description: Value, importance: Value, assigned_to_id: Value, status: Value, deadline: Value,
    notes: Value, category_id: Value, confirmation1: Value, confirmation2: Value, confirmation3: Value,
    created_by_id: Value)

  /** The row literal of `createTriage(t, createdById)`; `deadlineIso` is
      `toIso(t.deadline)`. */
  function NewRowOf(t: PageObject, createdById: Value, resolved: Value, deadlineIso: Value): NewRow {
    NewRow(
      client_name := OrEmpty(Get(t, Key.clientName)),
      business_name := OrNull(Get(t, Key.businessName)),
      client_phone := OrNull(Get(t, Key.clientPhone)),
      client_email := OrNull(Get(t, Key.clientEmail)),
      description := OrEmpty(Get(t, Key.description)),
      importance := if Truthy(Get(t, Key.importance)) then Get(t, Key.importance) else Text("medium"),
      assigned_to_id := OrNull(Get(t, Key.assigned_to_id)),
      status := if Truthy(Get(t, Key.status)) then Get(t, Key.status) else Text("open"),
      deadline := if Truthy(Get(t, Key.deadline)) then deadlineIso else Null,
      notes := OrNull(Get(t, Key.notes)),
      category_id := CreateCategoryId(t, resolved),
      confirmation1 := AsFlag(Get(t, Key.confirmation1)),
      confirmation2 := AsFlag(Get(t, Key.confirmation2)),
      confirmation3 := AsFlag(Get(t, Key.confirmation3)),
      created_by_id := createdById)
  }

  /** The row `createTriage` inserts, or `None` when it returns `null`
      without a backend call (backend not configured, or no creator). The
      row records the creator; importance defaults to `medium` and status
      to `open`; the name and description are never missing; the optional
      texts and ids are present or `null`, the deadline `null` when not
      given; the confirmations are booleans. */
  function CreateRow(t: PageObject, createdById: Value, configured: bool, resolved: Value, deadlineIso: Value): (r: Option<NewRow>)
    ensures r.None? <==> !configured || !Truthy(createdById)
    ensures r.Some? ==> r.value.created_by_id == createdById
    ensures r.Some? ==> Truthy(r.value.importance) && (!Truthy(Get(t, Key.importance)) ==> r.value.importance == Text("medium"))
    ensures r.Some? ==> Truthy(r.value.status) && (!Truthy(Get(t, Key.status)) ==> r.value.status == Text("open"))
    ensures r.Some? ==> TextOrEmpty(r.value.client_name) && TextOrEmpty(r.value.description)
    ensures r.Some? ==> PresentOrNull(r.value.business_name) && PresentOrNull(r.value.client_phone)
    ensures r.Some? ==> PresentOrNull(r.value.client_email) && PresentOrNull(r.value.notes)
    ensures r.Some? ==> PresentOrNull(r.value.assigned_to_id)
    ensures r.Some? && !Truthy(Get(t, Key.deadline)) ==> r.value.deadline == Null
    ensures r.Some? ==> r.value.confirmation1.Flag? && r.value.confirmation2.Flag? && r.value.confirmation3.Flag?
    ensures r.Some? ==> r.value.category_id == CreateCategoryId(t, resolved)
  {
    if !configured || !Truthy(createdById) then None
    else Some(NewRowOf(t, createdById, resolved, deadlineIso))
  }

  /** The row of a new entry once stored, before the database adds its id
      and timestamps and joins the names. */
  function Stored(n: NewRow): DbRow {
    DbRow(
      Undefined, n.client_name, n.business_name, n.client_phone, n.client_email,
      n.description, n.importance, n.assigned_to_id, n.status, n.deadline,
      n.notes, n.category_id, n.confirmation1, n.confirmation2, n.confirmation3,
      n.created_by_id, Undefined, Undefined, Undefined,
      Undefined, Undefined, Undefined, Undefined)
  }

  /** A new entry read back through `mapEntry` gives the page values it
      was built from: omitted optional texts come back as `''`, the
      confirmations as booleans of the given values, the creator as given;
      it has no category name yet and is not archived. */
  lemma CreatedEntryReadBack(t: PageObject, createdById: Value, resolved: Value, deadlineIso: Value)
    requires Truthy(createdById)
    ensures var e := MapEntry(Stored(CreateRow(t, createdById, true, resolved, deadlineIso).value));
      && e.clientName == OrEmpty(Get(t, Key.clientName))
      && e.businessName == OrEmpty(Get(t, Key.businessName))
      && e.clientPhone == OrEmpty(Get(t, Key.clientPhone))
      && e.clientEmail == OrEmpty(Get(t, Key.clientEmail))
      && e.notes == OrEmpty(Get(t, Key.notes))
      && e.assigned_to_id == OrNull(Get(t, Key.assigned_to_id))
      && e.confirmation1 == AsFlag(Get(t, Key.confirmation1))
      && (Truthy(Get(t, Key.status)) ==> e.status == Get(t, Key.status))
      && e.created_by_id == createdById
      && e.category == Text("") && e.archivedAt == Null
  {
  }

  // ---------------------------------------------------------------------
  // updateTriage (triage-data-supabase.js:245-274)

  /** The category id an update sets: a `category_id` that is neither
      `null`, `undefined` nor `''` wins over a category name, which
      resolves to `resolved`; else `null`. */
  function UpdateCategoryId(t: PageObject, resolved: Value): (r: Value)
    ensures Get(t, Key.category_id) !in {Undefined, Null, Text("")} ==> r == Get(t, Key.category_id)
    ensures Get(t, Key.category_id) in {Undefined, Null, Text("")} && TrimmedName(Get(t, Key.category)) != "" ==> r == resolved
    ensures Get(t, Key.category_id) in {Undefined, Null, Text("")} && TrimmedName(Get(t, Key.category)) == "" ==> r == Null
  {
    var given := Get(t, Key.category_id);
    if given != Null && given != Undefined && given != Text("") then given
    else if TrimmedName(Get(t, Key.category)) != "" then resolved
    else Null
  }

  /** The partial row `updateTriage` sends; `None` is a column it leaves
      out. */
  datatype Patch = Patch(
    client_name: Option<Value>, business_name: Option<Value>, client_phone: Option<Value>,
    client_email: Option<Value>, description: Option<Value>, importance: Option<Value>,
    assigned_to_id: Option<Value>, status: Option<Value>, deadline: Option<Value>, notes: Option<Value>,
    category_id: Option<Value>, confirmation1: Option<Value>, confirmation2: Option<Value>,
    confirmation3: Option<Value>, updated_at: Option<Value>)

  /** The empty object `{}`. */
  const EmptyPatch := Patch(None, None, None, None, None, None, None, None, None, None, None, None, None, None, None)

  /** A column of the patch is present exactly when key `k` is defined in
      `t`, and then holds `v`. */
  predicate SetFrom(column: Option<Value>, t: PageObject, k: Key, v: Value) {
    (column.Some? <==> Get(t, k) != Undefined) && (column.Some? ==> column.value == v)
  }

  /** Every column a create writes, apart from the creator, as an update
      that sets it. */
  function AsPatch(n: NewRow, nowIso: string): Patch {
    Patch(
      Some(n.client_name), Some(n.business_name), Some(n.client_phone), Some(n.client_email),
      Some(n.description), Some(n.importance), Some(n.assigned_to_id), Some(n.status), Some(n.deadline),
      Some(n.notes), Some(n.category_id), Some(n.confirmation1), Some(n.confirmation2),
      Some(n.confirmation3), Some(Text(nowIso)))
  }

  /** Lines 253-257 of `updateTriage`: the client columns that are given. */
  method SetClientColumns(row: Patch, t: PageObject) returns (r: Patch)
    ensures r.client_name == (if Get(t, Key.clientName) != Undefined then Some(Get(t, Key.clientName)) else row.client_name)
    ensures r.business_name == (if Get(t, Key.businessName) != Undefined then Some(OrNull(Get(t, Key.businessName))) else row.business_name)
    ensures r.client_phone == (if Get(t, Key.clientPhone) != Undefined then Some(OrNull(Get(t, Key.clientPhone))) else row.client_phone)
    ensures r.client_email == (if Get(t, Key.clientEmail) != Undefined then Some(OrNull(Get(t, Key.clientEmail))) else row.client_email)
    ensures r.description == (if Get(t, Key.description) != Undefined then Some(Get(t, Key.description)) else row.description)
    ensures r == row.(client_name := r.client_name, business_name := r.business_name, client_phone := r.client_phone, client_email := r.client_email, description := r.description)
  {
    r := row;
    r := r.(client_name := if Get(t, Key.clientName) != Undefined then Some(Get(t, Key.clientName)) else r.client_name);
    r := r.(business_name := if Get(t, Key.businessName) != Undefined then Some(OrNull(Get(t, Key.businessName))) else r.business_name);
    r := r.(client_phone := if Get(t, Key.clientPhone) != Undefined then Some(OrNull(Get(t, Key.clientPhone))) else r.client_phone);
    r := r.(client_email := if Get(t, Key.clientEmail) != Undefined then Some(OrNull(Get(t, Key.clientEmail))) else r.client_email);
    r := r.(description := if Get(t, Key.description) != Undefined then Some(Get(t, Key.description)) else r.description);
  }

  /** Lines 258-262 of `updateTriage`: importance, assignee, status,
      deadline and notes, when given. */
  method SetWorkColumns(row: Patch, t: PageObject, deadlineIso: Value) returns (r: Patch)
    ensures r.importance == (if Get(t, Key.importance) != Undefined then Some(Get(t, Key.importance)) else row.importance)
    ensures r.assigned_to_id == (if Get(t, Key.assigned_to_id) != Undefined then Some(OrNull(Get(t, Key.assigned_to_id))) else row.assigned_to_id)
    ensures r.status == (if Get(t, Key.status) != Undefined then Some(Get(t, Key.status)) else row.status)
    ensures r.deadline == (if Get(t, Key.deadline) != Undefined then Some(if Truthy(Get(t, Key.deadline)) then deadlineIso else Null) else row.deadline)
    ensures r.notes == (if Get(t, Key.notes) != Undefined then Some(OrNull(Get(t, Key.notes))) else row.notes)
    ensures r == row.(importance := r.importance, assigned_to_id := r.assigned_to_id, status := r.status, deadline := r.deadline, notes := r.notes)
  {
    r := row;
    r := r.(importance := if Get(t, Key.importance) != Undefined then Some(Get(t, Key.importance)) else r.importance);
    r := r.(assigned_to_id := if Get(t, Key.assigned_to_id) != Undefined then Some(OrNull(Get(t, Key.assigned_to_id))) else r.assigned_to_id);
    r := r.(status := if Get(t, Key.status) != Undefined then Some(Get(t, Key.status)) else r.status);
    r := r.(deadline := if Get(t, Key.deadline) != Undefined then Some(if Truthy(Get(t, Key.deadline)) then deadlineIso else Null) else r.deadline);
    r := r.(notes := if Get(t, Key.notes) != Undefined then Some(OrNull(Get(t, Key.notes))) else r.notes);
  }

  /** Lines 263-266 of `updateTriage`: the category, when either category
      key is given, and the confirmations. */
  method SetCategoryAndConfirmations(row: Patch, t: PageObject, resolved: Value) returns (r: Patch)
    ensures r.category_id == (if Key.category in t || Key.category_id in t then Some(UpdateCategoryId(t, resolved)) else row.category_id)
    ensures r.confirmation1 == (if Get(t, Key.confirmation1) != Undefined then Some(AsFlag(Get(t, Key.confirmation1))) else row.confirmation1)
    ensures r.confirmation2 == (if Get(t, Key.confirmation2) != Undefined then Some(AsFlag(Get(t, Key.confirmation2))) else row.confirmation2)
    ensures r.confirmation3 == (if Get(t, Key.confirmation3) != Undefined then Some(AsFlag(Get(t, Key.confirmation3))) else row.confirmation3)
    ensures r == row.(category_id := r.category_id, confirmation1 := r.confirmation1, confirmation2 := r.confirmation2, confirmation3 := r.confirmation3)
  {
    r := row;
    r := r.(category_id := if Key.category in t || Key.category_id in t then Some(UpdateCategoryId(t, resolved)) else r.category_id);
    r := r.(confirmation1 := if Get(t, Key.confirmation1) != Undefined then Some(AsFlag(Get(t, Key.confirmation1))) else r.confirmation1);
    r := r.(confirmation2 := if Get(t, Key.confirmation2) != Undefined then Some(AsFlag(Get(t, Key.confirmation2))) else r.confirmation2);
    r := r.(confirmation3 := if Get(t, Key.confirmation3) != Undefined then Some(AsFlag(Get(t, Key.confirmation3))) else r.confirmation3);
  }

  /** The row `updateTriage(id, t)` sends, built one column at a time
      (`deadlineIso` is `toIso(t.deadline)`, `nowIso` the time of the
      update). `None` when it returns `false` before any backend call (no
      id, or backend not configured). A column is present only when its key
      is defined in `t`; `category_id` only when `category` or
      `category_id` is a key; `updated_at` always. For a page object whose
      every key holds a truthy value, the update writes what a create
      would, whoever the creator. */
  method UpdateRow(entryId: Value, t: PageObject, configured: bool, resolved: Value, deadlineIso: Value, nowIso: string)
    returns (r: Option<Patch>)
    ensures r.None? <==> !Truthy(entryId) || !configured
    ensures r.Some? ==> SetFrom(r.value.client_name, t, Key.clientName, Get(t, Key.clientName))
    ensures r.Some? ==> SetFrom(r.value.business_name, t, Key.businessName, OrNull(Get(t, Key.businessName)))
    ensures r.Some? ==> SetFrom(r.value.client_phone, t, Key.clientPhone, OrNull(Get(t, Key.clientPhone)))
    ensures r.Some? ==> SetFrom(r.value.client_email, t, Key.clientEmail, OrNull(Get(t, Key.clientEmail)))
    ensures r.Some? ==> SetFrom(r.value.description, t, Key.description, Get(t, Key.description))
    ensures r.Some? ==> SetFrom(r.value.importance, t, Key.importance, Get(t, Key.importance))
    ensures r.Some? ==> SetFrom(r.value.assigned_to_id, t, Key.assigned_to_id, OrNull(Get(t, Key.assigned_to_id)))
    ensures r.Some? ==> SetFrom(r.value.status, t, Key.status, Get(t, Key.status))
    ensures r.Some? ==> SetFrom(r.value.deadline, t, Key.deadline, if Truthy(Get(t, Key.deadline)) then deadlineIso else Null)
    ensures r.Some? ==> SetFrom(r.value.notes, t, Key.notes, OrNull(Get(t, Key.notes)))
    ensures r.Some? ==> (r.value.category_id.Some? <==> Key.category in t || Key.category_id in t)
    ensures r.Some? && r.value.category_id.Some? ==> r.value.category_id.value == UpdateCategoryId(t, resolved)
    ensures r.Some? ==> SetFrom(r.value.confirmation1, t, Key.confirmation1, AsFlag(Get(t, Key.confirmation1)))
    ensures r.Some? ==> SetFrom(r.value.confirmation2, t, Key.confirmation2, AsFlag(Get(t, Key.confirmation2)))
    ensures r.Some? ==> SetFrom(r.value.confirmation3, t, Key.confirmation3, AsFlag(Get(t, Key.confirmation3)))
    ensures r.Some? ==> r.value.updated_at == Some(Text(nowIso))
    ensures r.Some? && (forall k :: Truthy(Get(t, k))) ==>
              forall creator :: r.value == AsPatch(NewRowOf(t, creator, resolved, deadlineIso), nowIso)
  {
    if !Truthy(entryId) || !configured {
      return None;
    }
    var row := SetClientColumns(EmptyPatch, t);
    row := SetWorkColumns(row, t, deadlineIso);
    row := SetCategoryAndConfirmations(row, t, resolved);
    row := row.(updated_at := Some(Text(nowIso)));
    if forall k :: Truthy(Get(t, k)) {
      FullUpdateMatchesCreate(t, resolved);
    }
    return Some(row);
  }

  /** With every key truthy, every key is defined and the update's category
      rule agrees with the create's. */
  lemma FullUpdateMatchesCreate(t: PageObject, resolved: Value)
    requires forall k :: Truthy(Get(t, k))
    ensures UpdateCategoryId(t, resolved) == CreateCategoryId(t, resolved)
    ensures Key.category_id in t
  {
    assert Truthy(Get(t, Key.category_id));
  }

  /** The two category rules differ: for `category_id: false` next to a
      category name, a create resolves the name and an update keeps
      `false`. */
  lemma CategoryRulesDiffer(resolved: Value)
    requires resolved != Flag(false)
    ensures var t := map[Key.category_id := Flag(false), Key.category := Text("Tax")];
      CreateCategoryId(t, resolved) == resolved && UpdateCategoryId(t, resolved) == Flag(false)
  {
    var t := map[Key.category_id := Flag(false), Key.category := Text("Tax")];
    assert TrimmedName(Get(t, Key.category)) == "Tax" by {
      TrimNoEdgeSpace("Tax");
    }
  }

  // ---------------------------------------------------------------------
  // The guards of addCategory, deleteTriage, archiveTriage and
  // resolveCategoryId (triage-data-supabase.js:83-95, 280-327)

  /** `deleteTriage(id)` and `archiveTriage(id)`: `false` without an id or a
      configured backend, else whether the backend call succeeded. */
  function RemoveOrArchive(entryId: Value, configured: bool, backendOk: bool): (ok: bool)
    ensures !Truthy(entryId) || !configured ==> !ok
    ensures Truthy(entryId) && configured ==> (ok <==> backendOk)
  {
    Truthy(entryId) && configured && backendOk
  }

  /** `addCategory(name)`: the name inserted, when an insert is made, and
      the answer; `insertError` is the error code of the insert (`""` for
      an error without one), `None` when it succeeds. A duplicate (code
      `23505`) and every other error answer `false`. */
  function AddCategory(name: Value, configured: bool, insertError: Option<string>): (r: (Option<string>, bool))
    ensures r.1 <==> r.0.Some? && insertError.None?
    ensures r.0.Some? <==> TrimmedName(name) != "" && configured
    ensures r.0.Some? ==> r.0.value == TrimmedName(name) && Trim(r.0.value) == r.0.value
    ensures insertError == Some("23505") ==> !r.1
  {
    var n := TrimmedName(name);
    if n == "" || !configured then (None, false)
    else
      TrimIdempotent(if name.Text? then name.s else "");
      (Some(n), insertError.None?)
  }

  /** `resolveCategoryId(name, createIfMissing)`: `None` for a blank
      trimmed name or no backend; else the id found for it (`found`), or
      when missing and `createIfMissing`, the id the insert answered. */
  function ResolveCategoryId(name: Value, createIfMissing: bool, available: bool, found: Option<string>, inserted: Option<string>): (r: Option<string>)
    ensures TrimmedName(name) == "" || !available ==> r.None?
    ensures r.Some? ==> r.value != ""
    ensures r.Some? && !(found.Some? && found.value != "") ==> createIfMissing && r == inserted
    ensures found.Some? && found.value != "" && TrimmedName(name) != "" && available ==> r == found
  {
    if TrimmedName(name) == "" || !available then None
    else if found.Some? && found.value != "" then found
    else if createIfMissing && inserted.Some? && inserted.value != "" then inserted
    else None
  }
}
