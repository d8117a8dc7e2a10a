// The tenant-scoped tables, and the joined records that responses carry.
module Crm {
  import opened Wrappers
  import opened Tables
  import opened Schema

  datatype CustomerStatus = NEW | INTERESTED | PENDING | ORDERED | DELIVERED | CANCELLED
  datatype OrderStatus = PENDING | CONFIRMED | PACKAGING | SHIPPED | DELIVERED | RETURNED | CANCELLED
  datatype PaymentStatus = UNPAID | PARTIAL | PAID
  datatype FileStatus = PENDING | UPLOADED | FAILED

  datatype Customer = Customer(
    name: string, facebookName: Option<string>, facebookId: Option<string>, profileUrl: Option<string>,
    phone: Option<string>, email: Option<string>, address: Option<string>, status: CustomerStatus,
    source: Option<string>, lastMessage: Option<string>, assignedTo: Option<Id>,
    lastContactedAt: Option<Millis>, createdAt: Millis)

  // Money columns are whole cents.
  datatype Order = Order(
    customerId: Id, orderNumber: string, productName: string, quantity: int,
    amount: int, discount: int, shippingFee: int, total: int,
    status: OrderStatus, paymentStatus: PaymentStatus, notes: Option<string>, createdAt: Millis)

  datatype Note = Note(customerId: Id, authorId: Option<Id>, content: string, createdAt: Millis)

  datatype Tag = Tag(name: string, color: string)

  datatype File = File(
    uploadedBy: Option<Id>, key: string, filename: string, mimeType: string, size: nat, status: FileStatus)

  // A row of customer_tags; the pair is its primary key.
  datatype Link = Link(customerId: Id, tagId: Id)

  datatype Db = Db(
    users: Table<User>, customers: Table<Customer>, orders: Table<Order>, notes: Table<Note>,
    tags: Table<Tag>, links: set<Link>, files: Table<File>)

  // TenantContext: who is asking.
  datatype Ctx = Ctx(userId: Id, org: OrgId, role: Role)

  // The clock and the id that a created row gets.
  datatype Input = Input(now: Millis, newId: Id)

  // --- records with their includes --------------------------------------

  datatype AgentCard = AgentCard(id: Id, firstName: Option<string>, lastName: Option<string>, email: string)

  datatype CustomerCard = CustomerCard(
    id: Id, row: Customer, assignedTo: Option<AgentCard>, tags: map<Id, Tag>, orders: nat, notes: nat)

  datatype OrderCard = OrderCard(
    id: Id, row: Order, customerName: string, phone: Option<string>, facebookName: Option<string>)

  datatype NoteCard = NoteCard(id: Id, row: Note, author: Option<AgentCard>)

  datatype DashboardStats = DashboardStats(
    totalCustomers: nat, totalOrders: nat, revenue: int, newLeads: nat, pendingOrders: nat)

  datatype Reply =
    | Done
    | CustomerRow(id: Id, customer: Customer)
    | CustomerFound(card: CustomerCard)
    | Customers(cards: map<Id, CustomerCard>)
    | OrderRow(id: Id, order: Order)
    | OrderFound(orderCard: OrderCard)
    | Orders(orderCards: map<Id, OrderCard>)
    | NoteRow(id: Id, note: Note)
    | NoteFound(noteCard: NoteCard)
    | Notes(noteCards: map<Id, NoteCard>)
    | TagFound(id: Id, tag: Tag)
    | Tags(tags: Table<Tag>)
    | UserFound(user: SafeUser)
    | Users(users: map<Id, SafeUser>)
    | FileFound(id: Id, file: File)
    | Stats(stats: DashboardStats)

  type Outcome = (Db, Result<Reply, Failure>)

  // The joins follow foreign keys and carry no organization filter.

  function Agent(users: Table<User>, id: Option<Id>): Option<AgentCard> {
    if id.None? || id.value !in users then None
    else
      var u := users[id.value].row;
      Some(AgentCard(id.value, u.firstName, u.lastName, u.email))
  }

  function TagsOf(db: Db, customer: Id): map<Id, Tag> {
    map t | t in db.tags && Link(customer, t) in db.links :: db.tags[t].row
  }

  function OrdersOf(orders: Table<Order>, customer: Id): set<Id> {
    set o | o in orders && orders[o].row.customerId == customer
  }

  function NotesOf(notes: Table<Note>, customer: Id): set<Id> {
    set n | n in notes && notes[n].row.customerId == customer
  }

  function CardOf(db: Db, id: Id): CustomerCard
    requires id in db.customers
  {
    var c := db.customers[id].row;
    CustomerCard(id, c, Agent(db.users, c.assignedTo), TagsOf(db, id),
                 |OrdersOf(db.orders, id)|, |NotesOf(db.notes, id)|)
  }

  function OrderCardOf(db: Db, id: Id): OrderCard
    requires id in db.orders
  {
    var o := db.orders[id].row;
    if o.customerId in db.customers then
      var c := db.customers[o.customerId].row;
      OrderCard(id, o, c.name, c.phone, c.facebookName)
    else OrderCard(id, o, "", None, None)
  }

  function NoteCardOf(db: Db, id: Id): NoteCard
    requires id in db.notes
  {
    NoteCard(id, db.notes[id].row, Agent(db.users, db.notes[id].row.authorId))
  }

  /** An optional DTO field: absent keeps the old value. */
  function Keep<T>(field: Option<T>, current: T): T { field.GetOr(current) }
}
