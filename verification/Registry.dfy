/**
 * The hub's nested map: user -> set of that user's connections. Generic in the connection so
 * that the hub object (connections are objects) and the interleaving model (connections are
 * numbers) share one definition of adding and removing.
 */
module Registry {

  type Registry<K(==), C(==)> = map<K, set<C>>

  /** addClient: make the inner set on first use, then insert. */
  function Add<K, C(==)>(m: Registry<K, C>, user: K, c: C): Registry<K, C> {
    m[user := (if user in m then m[user] else {}) + {c}]
  }

  /** removeClient: delete from the inner set, and drop the set when it is empty. */
  function Remove<K, C(==)>(m: Registry<K, C>, user: K, c: C): Registry<K, C> {
    if user !in m then m
    else if m[user] - {c} == {} then m - {user}
    else m[user := m[user] - {c}]
  }

  function All<K, C(==)>(m: Registry<K, C>): set<C> {
    set u, c | u in m && c in m[u] :: c
  }

  /** The connections of the users in a set. */
  function Of<K, C(==)>(m: Registry<K, C>, users: set<K>): set<C> {
    set u, c | u in users && u in m && c in m[u] :: c
  }

  ghost predicate NoEmptySets<K, C>(m: Registry<K, C>) {
    forall u | u in m :: m[u] != {}
  }

  /** Nobody is registered under two users. */
  ghost predicate Separate<K, C>(m: Registry<K, C>) {
    forall u, v | u in m && v in m && u != v :: m[u] !! m[v]
  }

  ghost predicate Sound<K, C>(m: Registry<K, C>) {
    NoEmptySets(m) && Separate(m)
  }

  lemma AddSound<K, C>(m: Registry<K, C>, user: K, c: C)
    requires Sound(m) && c !in All(m)
    ensures Sound(Add(m, user, c))
    ensures All(Add(m, user, c)) == All(m) + {c}
  {
    AddAll(m, user, c);
    var after := Add(m, user, c);
    assert forall u | u in m :: m[u] <= All(m);
    assert forall u | u in after && u != user :: u in m && after[u] == m[u];
  }

  lemma AddAll<K, C>(m: Registry<K, C>, user: K, c: C)
    ensures All(Add(m, user, c)) == All(m) + {c}
  {
    var after := Add(m, user, c);
    assert c in after[user];
    forall x | x in All(m)
      ensures x in All(after)
    {
      var u :| u in m && x in m[u];
      assert u in after && x in after[u];
    }
  }

  lemma RemoveSound<K, C>(m: Registry<K, C>, user: K, c: C)
    requires Sound(m) && (user in m ==> forall v | v in m && c in m[v] :: v == user)
    requires c in All(m) ==> user in m
    ensures Sound(Remove(m, user, c))
    ensures All(Remove(m, user, c)) == All(m) - {c}
  {
    RemoveAll(m, user, c);
    var after := Remove(m, user, c);
    assert forall u | u in after && u != user :: u in m && after[u] == m[u];
  }

  lemma RemoveAll<K, C>(m: Registry<K, C>, user: K, c: C)
    requires user in m ==> forall v | v in m && c in m[v] :: v == user
    requires c in All(m) ==> user in m
    ensures All(Remove(m, user, c)) == All(m) - {c}
  {
    var after := Remove(m, user, c);
    forall x | x in All(m) && x != c
      ensures x in All(after)
    {
      var u :| u in m && x in m[u];
      if u == user {
        assert x in m[user] - {c};
      }
      assert u in after && x in after[u];
    }
    forall x | x in All(after)
      ensures x in All(m) && x != c
    {
      var u :| u in after && x in after[u];
      assert u in m && x in m[u];
    }
  }

  /** Registering and then unregistering gives back the same registry. */
  lemma RemoveUndoesAdd<K, C>(m: Registry<K, C>, user: K, c: C)
    requires Sound(m) && c !in All(m)
    ensures Remove(Add(m, user, c), user, c) == m
  {
    if user in m {
      assert m[user] <= All(m);
      assert m[user] + {c} - {c} == m[user];
    }
  }
}
