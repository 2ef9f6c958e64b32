/** The curated verbs: how each is executed, how it is deduplicated, and how its effect is undone. */
module Verbs {
  import opened Text
  import opened Options
  import opened Values
  import opened Domain

  datatype VerbName =
    | CreateLead | CreateContact | CreateClient | UpdateContact | LogNote | UpdateLeadStage | DeleteLead | DeleteContact
    | CreateInvoice | PostInvoice | RegisterPayment | ServicesInvoice | RecordPayment | PurchaseInvoice
    | ConfirmSale | ValidatePicking | CreateProduct | SetLandedCost
    | CreateOrder | DeleteOrder | ConfirmOrder | LinkSupplier | UnlinkSupplier | CreateSupplier

  datatype Op = CreateOp | UpdateOp | UpsertOp | DeleteOp | MethodOp

  /** A deduplication key: one field, a group of fields, or resolved domain triples. */
  datatype DedupKey = Single(field: string) | Group(fields: seq<string>) | Resolved(triples: seq<Token>)

  /** `action` is the model method of a method verb, `reverse` its inverse, `stamp` the field a keyed
      create stamps its attempt key into ("" for none of them). */
  datatype Verb = Verb(
    tier: string, doctype: string, op: Op, required: seq<string>, dedup: seq<DedupKey>,
    action: string, reverse: string, stamp: string, convergent: bool)

  function Plain(tier: string, doctype: string, op: Op, required: seq<string>, convergent: bool): Verb {
    Verb(tier, doctype, op, required, [], "", "", "", convergent)
  }

  function Keyed(tier: string, doctype: string, required: seq<string>, stamp: string): Verb {
    Verb(tier, doctype, CreateOp, required, [], "", "", stamp, false)
  }

  function Action(doctype: string, required: seq<string>, action: string, reverse: string): Verb {
    Verb("HIGH", doctype, MethodOp, required, [], action, reverse, "", true)
  }

  const EMAIL_OR_PHONE := [Single("email"), Single("phone")]

  /** The write-verb table. */
  function Lookup(v: VerbName): Verb {
    match v
    case CreateLead => Plain("MEDIUM", "crm.lead", CreateOp, ["name"], false)
    case CreateContact => Plain("MEDIUM", "res.partner", UpsertOp, ["name"], true).(dedup := EMAIL_OR_PHONE)
    case CreateClient => Plain("MEDIUM", "res.partner", UpsertOp, ["name"], true).(dedup := EMAIL_OR_PHONE)
    case UpdateContact => Plain("MEDIUM", "res.partner", UpdateOp, ["contact_id"], true)
    case LogNote => Action("res.partner", ["contact_id", "body"], "message_post",
                           "").(tier := "MEDIUM", convergent := false)
    case UpdateLeadStage => Plain("MEDIUM", "crm.lead", UpdateOp, ["lead_id", "stage_id"], true)
    case DeleteLead => Plain("HIGH", "crm.lead", DeleteOp, ["lead_id"], true)
    case DeleteContact => Plain("HIGH", "res.partner", DeleteOp, ["contact_id"], true)
    case CreateInvoice => Keyed("HIGH", "account.move", ["partner_id"], "ref")
    case PostInvoice => Action("account.move", ["invoice_id"], "action_post", "button_draft")
    case RegisterPayment => Keyed("HIGH", "account.payment", ["partner_id", "amount"], "ref")
    case ServicesInvoice => Keyed("HIGH", "account.move", ["client_id"], "ref")
    case RecordPayment => Keyed("HIGH", "account.payment", ["invoice_id", "amount"], "ref")
    case PurchaseInvoice => Keyed("HIGH", "account.move", ["supplier_id"], "ref")
    case ConfirmSale => Action("sale.order", ["order_id"], "action_confirm", "")
    case ValidatePicking => Action("stock.picking", ["picking_id"], "button_validate", "")
    case CreateProduct => Keyed("MEDIUM", "product.product", ["name"], "description")
    case SetLandedCost => Plain("HIGH", "product.product", UpdateOp, ["product_id", "po_amount", "qty"], true)
    case CreateOrder => Keyed("MEDIUM", "purchase.order", ["partner_id"], "origin")
    case DeleteOrder => Plain("HIGH", "purchase.order", DeleteOp, ["order_id"], true)
    case ConfirmOrder => Action("purchase.order", ["order_id"], "button_confirm", "button_cancel")
    case LinkSupplier =>
      Plain("MEDIUM", "product.supplierinfo", UpsertOp, ["product_ref", "supplier_ref"], true)
      .(dedup := [Group(["product_tmpl_id", "partner_id"])])
    case UnlinkSupplier => Plain("HIGH", "product.supplierinfo", DeleteOp, ["link_ref"], true)
    case CreateSupplier =>
      Plain("MEDIUM", "res.partner", UpsertOp, ["name"], true)
      .(dedup := [Group(["email", "supplier_rank"]), Group(["name", "supplier_rank"])])
  }

  /** The args a verb declares as needing a number above zero. */
  function Positive(v: VerbName): seq<string> {
    if v == SetLandedCost then ["po_amount", "qty"] else []
  }

  /** Laws of the table. Every create but a lead's has a stamp field, fixed by its model. What deletes or
      touches the accounts is HIGH. A method has an inverse when it posts an invoice or confirms an order,
      and only then. */
  lemma TableLaws(v: VerbName)
    ensures var verb := Lookup(v);
            && (verb.stamp != "" <==> verb.op == CreateOp && v != CreateLead)
            && (verb.stamp != "" ==>
                  verb.stamp == if verb.doctype == "purchase.order" then "origin"
                                else if verb.doctype == "product.product" then "description" else "ref")
            && (verb.op == DeleteOp || verb.doctype == "account.move" || verb.doctype == "account.payment" ==>
                  verb.tier == "HIGH")
            && (verb.op == MethodOp <==> verb.action != "")
            && (verb.reverse != "" <==> verb.action == "action_post" || verb.action == "button_confirm")
            && (verb.op != CreateOp ==> (verb.convergent <==> verb.action != "message_post"))
            && verb.required != []
  {
  }

  // ---------------------------------------------------------------- compensations

  datatype Compensation = Irreversible | BeforeImage | UndoBy(verb: VerbName)

  /** The reversal table; a verb it does not name is irreversible. */
  function Compensations(v: VerbName): Compensation {
    match v
    case CreateLead => UndoBy(DeleteLead)
    case CreateContact => UndoBy(DeleteContact)
    case CreateClient => UndoBy(DeleteContact)
    case UpdateContact => BeforeImage
    case CreateOrder => UndoBy(DeleteOrder)
    case LinkSupplier => UndoBy(UnlinkSupplier)
    case CreateSupplier => UndoBy(DeleteContact)
    case _ => Irreversible
  }

  /** Every upsert is undone by a verb, and of the other verbs the creates of leads and orders; a contact's
      update by its before-image. Nothing that touches the accounts, products' costs or notes is. */
  lemma ReversalLaws(v: VerbName)
    ensures Compensations(v).UndoBy? <==> Lookup(v).op == UpsertOp || v == CreateLead || v == CreateOrder
    ensures Compensations(v) == BeforeImage <==> v == UpdateContact
    ensures Compensations(v).UndoBy? ==> Lookup(v).doctype != "account.move" && Lookup(v).doctype != "account.payment"
  {
  }

  /** The arg of a compensating verb that carries the record id. */
  function CompIdArg(v: VerbName): Option<string> {
    match v
    case DeleteLead => Some("lead_id")
    case DeleteContact => Some("contact_id")
    case DeleteOrder => Some("order_id")
    case UnlinkSupplier => Some("link_ref")
    case _ => None
  }

  datatype Reversal = NotMapped | NoVerbKey | Reverse(verb: VerbName, args: Row)

  /** `compensate`: NotMapped where it raises NotImplementedError, NoVerbKey where the table entry
      has no compensating verb to read. */
  function Compensate(v: VerbName, id: string): Reversal {
    match Compensations(v)
    case Irreversible => NotMapped
    case BeforeImage => NoVerbKey
    case UndoBy(u) =>
      match CompIdArg(u)
      case None => NotMapped
      case Some(arg) => Reverse(u, map[arg := Text(id)])
  }

  /** Every compensating verb the table names is a delete on the model of the verb it undoes, and its
      one required arg is the arg the id is put into. */
  lemma CompensationIsCommittable(v: VerbName, id: string)
    requires Compensations(v).UndoBy?
    ensures var r := Compensate(v, id);
            && r.Reverse? && r.verb == Compensations(v).verb
            && Lookup(r.verb).op == DeleteOp && Lookup(r.verb).doctype == Lookup(v).doctype
            && Lookup(r.verb).required == [CompIdArg(r.verb).value]
            && ArgText(r.args, Lookup(r.verb).required[0]) == id
  {
  }

  /** `str(args.get(name, ""))`. */
  function ArgText(args: Row, name: string): string {
    if name in args then Show(args[name]) else ""
  }

  function Missing(v: Verb, args: Row): bool {
    exists f | f in v.required :: !Truthy(Field(args, f))
  }

  // ---------------------------------------------------------------- the supplier upsert

  /** `_to_native_create_supplier`. */
  function SupplierDoc(args: Row): Row {
    map["name" := Field(args, "name"), "is_company" := Flag(true), "supplier_rank" := Num(1)]
    + (map f | f in {"email", "phone", "vat"} && Truthy(Field(args, f)) :: Field(args, f))
  }

  /** `_dedup_probe_create_supplier`: the email alone when there is one, else the name alone. */
  function SupplierProbe(args: Row): seq<DedupKey> {
    var identity := if Truthy(Field(args, "email")) then "email" else "name";
    [Resolved([Triple(identity, Eq(Field(args, identity))), Triple("supplier_rank", Gt(Num(0)))])]
  }

  /** `dedup_probe_keys(args) or dedup_keys`. */
  function ProbeKeys(v: VerbName, args: Row): seq<DedupKey> {
    if v == CreateSupplier then SupplierProbe(args) else Lookup(v).dedup
  }

  /** The document the verb writes. Only the supplier's field map is modelled; any other verb's is
      the given document. */
  function NativeDoc(v: VerbName, args: Row, given: Row): Row {
    if v == CreateSupplier then SupplierDoc(args) else given
  }

  /** The domain one deduplication key is probed with, None when a field of it is empty. */
  function ProbeDomain(k: DedupKey, native: Row): Option<seq<Token>> {
    match k
    case Resolved(ts) => Some(ts)
    case Single(f) => if Truthy(Field(native, f)) then Some([Triple(f, Eq(Field(native, f)))]) else None
    case Group(fs) =>
      if forall f | f in fs :: Truthy(Field(native, f)) then
        Some(seq(|fs|, i requires 0 <= i < |fs| => Triple(fs[i], Eq(Field(native, fs[i])))))
      else None
  }

  /** PROPOSE's guard: at least one key can be probed. */
  predicate SomeKeyProbed(keys: seq<DedupKey>, native: Row) {
    exists k | k in keys :: ProbeDomain(k, native).Some?
  }
}
