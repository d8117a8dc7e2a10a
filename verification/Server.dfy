// The assembled API: the guard binds the caller, a service handles the request, and
// the effect is exactly one step of the store's specification.
module Server {
  import opened Wrappers
  import opened Tables
  import opened Schema
  import opened Crm
  import opened Tenancy
  import D = Database
  import T = TenantContext
  import Consistency
  import Analytics
  import CustomerSpec
  import OrderSpec
  import StoreSpec
  import Customers = CustomerService
  import Orders = OrderService
  import Notes = NoteService
  import Tags = TagService
  import Users = UserService
  import Files = FileService
  import Extension = ExtensionService

  class Server {
    const db: D.Database
    const tenant: T.TenantContext
    const guard: T.TenantGuard
    const customers: Customers.CustomerService
    const orders: Orders.OrderService
    const notes: Notes.NoteService
    const tags: Tags.TagService
    const users: Users.UserService
    const files: Files.FileService
    const extension: Extension.ExtensionService

    constructor (db: D.Database, tenant: T.TenantContext)
      ensures this.db == db && this.tenant == tenant && Wired()
    {
      this.db, this.tenant := db, tenant;
      this.guard := new T.TenantGuard(tenant);
      var customerRepo := new Customers.CustomerRepository(db, tenant);
      this.customers := new Customers.CustomerService(customerRepo);
      var orderRepo := new Orders.OrderRepository(db, tenant);
      var orders := new Orders.OrderService(orderRepo);
      this.orders := orders;
      var noteRepo := new Notes.NoteRepository(db, tenant);
      var notes := new Notes.NoteService(noteRepo);
      this.notes := notes;
      var tagRepo := new Tags.TagRepository(db, tenant);
      this.tags := new Tags.TagService(tagRepo);
      var userRepo := new Users.UserRepository(db);
      this.users := new Users.UserService(userRepo, tenant);
      var fileRepo := new Files.FileRepository(db, tenant);
      this.files := new Files.FileService(fileRepo);
      this.extension := new Extension.ExtensionService(customerRepo, notes, orders);
    }

    /** Every service works on the one database and the one tenant context. */
    predicate Wired() {
      && guard.tenant == tenant
      && customers.repo.db == db && customers.repo.tenant == tenant
      && orders.repo.db == db && orders.repo.tenant == tenant
      && notes.repo.db == db && notes.repo.tenant == tenant
      && tags.repo.db == db && tags.repo.tenant == tenant
      && users.repo.db == db && users.tenant == tenant
      && files.repo.db == db && files.repo.tenant == tenant
      && extension.customers.db == db && extension.customers.tenant == tenant
      && extension.Wired()
    }

    method HandleCustomers(call: Call) returns (reply: Result<Reply, Failure>)
      requires Wired() && tenant.Bound() && tenant.Ctx() == call.ctx && AboutCustomers(call.request)
      requires FacebookIdsUnique(db.customers)
      modifies db
      ensures (db.State(), reply) == Step(old(db.State()), call)
    {
      hide CustomerSpec.Create, CustomerSpec.Update, CustomerSpec.Assign, CustomerSpec.ChangeStatus;
      hide CustomerSpec.Remove, CustomerSpec.FindAll, CustomerSpec.FindOne;
      match call.request
      case CustomerCreate(dto) => reply := customers.Create(call.input, dto);
      case CustomerFindAll(filter) => reply := customers.FindAll(filter);
      case CustomerFindOne(id) => reply := customers.FindOne(id);
      case CustomerUpdate(id, dto) => reply := customers.Update(id, dto);
      case CustomerRemove(id) => reply := customers.Remove(id);
      case CustomerChangeStatus(id, status) => reply := customers.ChangeStatus(id, status);
      case CustomerAssign(id, agent) => reply := customers.Assign(id, agent);
    }

    method HandleOrdersOrNotes(call: Call) returns (reply: Result<Reply, Failure>)
      requires Wired() && tenant.Bound() && tenant.Ctx() == call.ctx && AboutOrdersOrNotes(call.request)
      modifies db
      ensures (db.State(), reply) == Step(old(db.State()), call)
    {
      hide OrderSpec.Create, OrderSpec.Update, OrderSpec.ChangeStatus, OrderSpec.Remove, OrderSpec.FindAll;
      hide OrderSpec.FindOne, StoreSpec.CreateNote, StoreSpec.UpdateNote, StoreSpec.RemoveNote, StoreSpec.ListNotes;
      match call.request
      case OrderCreate(dto) => reply := orders.Create(call.input, dto);
      case OrderFindAll(filter) => reply := orders.FindAll(filter);
      case OrderFindOne(id) => reply := orders.FindOne(id);
      case OrderUpdate(id, dto) => reply := orders.Update(id, dto);
      case OrderChangeStatus(id, status) => reply := orders.ChangeStatus(id, status);
      case OrderRemove(id) => reply := orders.Remove(id);
      case NoteCreate(customerId, content) => reply := notes.Create(call.input, customerId, content);
      case NoteList(customerId) => reply := notes.ListByCustomer(customerId);
      case NoteUpdate(id, content) => reply := notes.Update(id, content);
      case NoteRemove(id) => reply := notes.Remove(id);
    }

    method HandleTagsOrUsers(call: Call) returns (reply: Result<Reply, Failure>)
      requires Wired() && tenant.Bound() && tenant.Ctx() == call.ctx && AboutTagsOrUsers(call.request)
      modifies db
      ensures (db.State(), reply) == Step(old(db.State()), call)
    {
      hide StoreSpec.CreateTag, StoreSpec.UpdateTag, StoreSpec.RemoveTag, StoreSpec.AttachTag, StoreSpec.DetachTag;
      hide StoreSpec.ListTags, StoreSpec.FindUser, StoreSpec.ListUsers, StoreSpec.UpdateUser, StoreSpec.ChangeUserRole;
      match call.request
      case TagCreate(name, color) => reply := tags.Create(call.input, name, color);
      case TagList => reply := tags.FindAll();
      case TagUpdate(id, name, color) => reply := tags.Update(id, name, color);
      case TagRemove(id) => reply := tags.Remove(id);
      case TagAttach(tagId, customerId) => reply := tags.Attach(tagId, customerId);
      case TagDetach(tagId, customerId) => reply := tags.Detach(tagId, customerId);
      case UserFind(id) => reply := users.FindOne(id);
      case UserList => reply := users.List();
      case UserUpdate(id, first, last, avatar) => reply := users.Update(id, first, last, avatar);
      case UserChangeRole(id, role) => reply := users.ChangeRole(id, role);
    }

    /** The dashboard answer here is the uncached one. */
    method HandleFilesOrMessenger(call: Call) returns (reply: Result<Reply, Failure>)
      requires Wired() && tenant.Bound() && tenant.Ctx() == call.ctx && AboutFilesOrMessenger(call.request)
      requires FacebookIdsUnique(db.customers) && FileKeysUnique(db.files)
      modifies db
      ensures (db.State(), reply) == Step(old(db.State()), call)
    {
      hide StoreSpec.PresignUpload, StoreSpec.ConfirmUpload, StoreSpec.FindFile, StoreSpec.RemoveFile;
      hide StoreSpec.SyncCustomer, StoreSpec.AddNote, StoreSpec.CreateExtensionOrder, Analytics.StatsOf;
      match call.request
      case FilePresign(filename, mimeType, size) => reply := files.PresignUpload(call.input, filename, mimeType, size);
      case FileConfirm(key) => reply := files.ConfirmUpload(key);
      case FileFind(id) => reply := files.GetDownloadUrl(id);
      case FileRemove(id) => reply := files.Remove(id);
      case ExtensionSync(dto) => reply := extension.SyncCustomer(call.input, dto);
      case ExtensionNote(facebookId, content) => reply := extension.AddNote(call.input, facebookId, content);
      case ExtensionOrder(facebookId, productName, quantity, amount) =>
        reply := extension.CreateOrder(call.input, facebookId, productName, quantity, amount);
      case DashboardRead => reply := Ok(Stats(Analytics.StatsOf(db.State(), call.ctx.org)));
    }

    /**
     * One authenticated request. Without an organization the guard refuses it; otherwise the guard
     * binds the token's identity, and the store takes exactly one specified step and stays consistent.
     */
    method Handle(user: T.AuthUser, input: Input, request: Request) returns (reply: Result<Reply, Failure>)
      requires Wired() && db.Valid()
      requires user.organizationId.uuid != "" ==>
                 Admissible(db.State(), Call(Ctx(user.id, user.organizationId, user.role), input, request))
      modifies db, tenant
      ensures (db.State(), reply)
              == if user.organizationId.uuid == "" then (old(db.State()), Err(Unauthorized))
                 else Step(old(db.State()), Call(Ctx(user.id, user.organizationId, user.role), input, request))
      ensures db.Valid()
    {
      hide Step, OrdersLinked, NotesLinked, AgentsLinked, TagsLinked, FileKeysNamespaced, Admissible;
      var call := Call(Ctx(user.id, user.organizationId, user.role), input, request);
      ghost var before := db.State();
      if user.organizationId.uuid != "" { Consistency.StepKeepsConsistent(before, call); }
      var passed := guard.CanActivate(false, false, Some(user));
      assert db.State() == before;
      if !passed { return Err(Unauthorized); }
      if AboutCustomers(request) { reply := HandleCustomers(call); }
      else if AboutOrdersOrNotes(request) { reply := HandleOrdersOrNotes(call); }
      else if AboutTagsOrUsers(request) { reply := HandleTagsOrUsers(call); }
      else { reply := HandleFilesOrMessenger(call); }
    }
  }
}
