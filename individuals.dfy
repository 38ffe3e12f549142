/**
 * The individual store behind `individual_service.get_or_create`, as seen through one
 * database session: rows keyed by email, so that at most one individual exists per
 * email, and a commit that makes the session's rows the persisted ones.
 */
module Individuals {

  datatype Individual = Individual(id: nat, email: string)

  /** The session's view of the individual rows and the next row id it would assign. */
  datatype Store = Store(rows: map<string, Individual>, nextId: nat)

  /** Every row is filed under its own email, has an id below `nextId`, and no two rows share an id. */
  predicate StoreValid(st: Store)
  {
    && (forall e :: e in st.rows ==> st.rows[e].email == e && st.rows[e].id < st.nextId)
    && (forall e1, e2 :: e1 in st.rows && e2 in st.rows && e1 != e2 ==> st.rows[e1].id != st.rows[e2].id)
  }

  /**
   * Get-or-create an individual by email: the existing row if there is one, otherwise a
   * new row with a fresh id. The store gains at most the one key `email` and no existing
   * row changes.
   */
  function GetOrCreate(st: Store, email: string): (r: (Individual, Store))
    ensures r.1.rows == st.rows[email := r.0]
    ensures email in st.rows ==> r == (st.rows[email], st)
    ensures email !in st.rows ==> r.0 == Individual(st.nextId, email) && r.1.nextId == st.nextId + 1
  {
    if email in st.rows then (st.rows[email], st)
    else
      var individual := Individual(st.nextId, email);
      (individual, Store(st.rows[email := individual], st.nextId + 1))
  }

  /** Get-or-create keeps the store valid and returns an individual with the email asked for. */
  lemma GetOrCreateValid(st: Store, email: string)
    requires StoreValid(st)
    ensures StoreValid(GetOrCreate(st, email).1)
    ensures GetOrCreate(st, email).0.email == email
  {
  }

  /** Asking again for the same email returns the same row and changes nothing. */
  lemma GetOrCreateIdempotent(st: Store, email: string)
    ensures var (i1, st1) := GetOrCreate(st, email);
            GetOrCreate(st1, email) == (i1, st1)
  {
  }

  /** A database session: the rows it sees, and (for the proof only) the rows last committed. */
  class Session {
    var store: Store
    /** The rows made durable by the last commit. */
    ghost var committed: Store
    /** How many times the session has been committed. */
    ghost var commits: nat

    constructor (persisted: Store)
      ensures store == persisted && committed == persisted && commits == 0
    {
      store := persisted;
      committed := persisted;
      commits := 0;
    }

    /** `individual_service.get_or_create(db_session=..., email=...)`, without committing. */
    method GetOrCreateIndividual(email: string) returns (individual: Individual)
      modifies this
      ensures (individual, store) == GetOrCreate(old(store), email)
      ensures committed == old(committed) && commits == old(commits)
    {
      if email in store.rows {
        individual := store.rows[email];
      } else {
        individual := Individual(store.nextId, email);
        store := Store(store.rows[email := individual], store.nextId + 1);
      }
    }

    /** `db_session.commit()`: the session's rows become the persisted ones. */
    method Commit()
      modifies this
      ensures store == old(store) && committed == store && commits == old(commits) + 1
    {
      committed := store;
      commits := commits + 1;
    }
  }
}
