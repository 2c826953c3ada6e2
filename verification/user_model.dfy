/** The user document as the controllers see it (server/src/models/User.ts). */
module UserModel {
  import opened Common

  datatype User = User(id: Id, name: string, email: string, password: string, role: string, premium: bool)

  /** A user as returned by a query with `.select('-password')`: the type has no password. */
  datatype PublicUser = PublicUser(id: Id, name: string, email: string, role: string, premium: bool)

  function View(u: User): (v: PublicUser)
    ensures v.id == u.id && v.name == u.name && v.email == u.email
    ensures v.role == u.role && v.premium == u.premium
  {
    PublicUser(u.id, u.name, u.email, u.role, u.premium)
  }

  type UserStore = map<Id, User>
}
