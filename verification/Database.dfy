// The tenant tables as they are updated in place.
module Database {
  import opened Tables
  import opened Schema
  import opened Crm
  import Tenancy

  class Database {
    var users: Table<User>
    var customers: Table<Customer>
    var orders: Table<Order>
    var notes: Table<Note>
    var tags: Table<Tag>
    var links: set<Link>
    var files: Table<File>

    constructor ()
      ensures State() == Db(map[], map[], map[], map[], map[], {}, map[])
      ensures Valid()
    {
      users, customers, orders, notes, tags, links, files := map[], map[], map[], map[], map[], {}, map[];
    }

    function State(): Db
      reads this
    {
      Db(users, customers, orders, notes, tags, links, files)
    }

    /** Links stay within an organization and the unique indexes hold. */
    ghost predicate Valid()
      reads this
    {
      Tenancy.Consistent(State())
    }
  }
}
