/** The `users` table as the authentication handlers see it: a map from the
    normalised e-mail address to the stored record. */
module UserStore {

  /** One row of `users`. `passwordHash` is the column the code calls
      `current_password`; it holds the bcrypt hash, never the plain text. */
  datatype User = User(id: nat, fullname: string, email: string, passwordHash: string)

  type Store = map<string, User>

  /** Every record sits under its own e-mail address. */
  predicate KeyedByEmail(store: Store) {
    forall e :: e in store ==> store[e].email == e
  }

  /** No two records share an e-mail address. */
  ghost predicate EmailUnique(store: Store) {
    forall a, b :: a in store && b in store && store[a].email == store[b].email ==> a == b
  }

  /** No two records share an id. */
  ghost predicate IdsUnique(store: Store) {
    forall a, b :: a in store && b in store && store[a].id == store[b].id ==> a == b
  }

  /** A store keyed by e-mail cannot hold the same address twice. */
  lemma KeyedByEmailIsUnique(store: Store)
    requires KeyedByEmail(store)
    ensures EmailUnique(store)
  {
  }
}
