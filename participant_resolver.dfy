/**
 * `DispatchParticipantResolverPlugin.get`: route the incident, then resolve each service
 * contact of the recommendation, in order, to an individual: find the contact plugin by
 * the contact's type, ask it for the email of the contact's external id, get-or-create
 * the individual with that email and append it to the recommendation's individual
 * contacts. The session is committed once, after every contact has been resolved.
 *
 * The plugin registry is a map from slug to resolver; a resolver maps an external id to
 * an email or to the provider's error message.
 */
module ParticipantResolver {
  import opened Wrappers
  import opened Individuals
  import opened Routing

  /** The attributes of an incident type or priority object (its `__dict__`). */
  type Attributes = map<string, string>

  type Resolver = string -> Result<string, string>

  type Registry = map<string, Resolver>

  datatype ResolveError =
    /** No plugin is registered under the contact's type. */
    | PluginNotFound(slug: string)
    /** The contact plugin failed for this external id. */
    | ProviderFailed(slug: string, externalId: string, message: string)

  /** The email one service contact resolves to, or why it does not. */
  function ContactEmail(registry: Registry, contact: ServiceContact): (r: Result<string, ResolveError>)
  {
    if contact.kind !in registry then Err(PluginNotFound(contact.kind))
    else
      match registry[contact.kind](contact.externalId)
      case Ok(email) => Ok(email)
      case Err(m) => Err(ProviderFailed(contact.kind, contact.externalId, m))
  }

  /** Resolving one more contact after `acc`: a failure so far, or of this contact, stops resolution. */
  function Step(registry: Registry, acc: Result<(seq<Individual>, Store), ResolveError>, contact: ServiceContact)
    : (r: Result<(seq<Individual>, Store), ResolveError>)
  {
    match acc
    case Err(e) => Err(e)
    case Ok((individuals, st)) =>
      match ContactEmail(registry, contact)
      case Err(e) => Err(e)
      case Ok(email) =>
        var (individual, st') := GetOrCreate(st, email);
        Ok((individuals + [individual], st'))
  }

  /**
   * Resolving a sequence of contacts against a store, one after the other: the individuals
   * appended, one per contact, and the store left behind; or the first failure.
   */
  function ResolveAll(registry: Registry, contacts: seq<ServiceContact>, st: Store)
    : (r: Result<(seq<Individual>, Store), ResolveError>)
    ensures r.Ok? ==> |r.value.0| == |contacts|
    decreases |contacts|
  {
    if contacts == [] then Ok(([], st))
    else Step(registry, ResolveAll(registry, contacts[..|contacts| - 1], st), contacts[|contacts| - 1])
  }

  /** The emails the given contacts resolve to, for contacts that all resolve. */
  function Emails(registry: Registry, contacts: seq<ServiceContact>): (emails: set<string>)
  {
    set k | 0 <= k < |contacts| && ContactEmail(registry, contacts[k]).Ok? :: ContactEmail(registry, contacts[k]).value
  }

  /**
   * Every contact resolves, and the individual appended for it is the row the resulting
   * store holds for its email; rows that existed before are untouched.
   */
  lemma {:induction false} ResolveAllRows(registry: Registry, contacts: seq<ServiceContact>, st: Store)
    requires ResolveAll(registry, contacts, st).Ok?
    ensures var (individuals, st') := ResolveAll(registry, contacts, st).value;
            && (forall e :: e in st.rows ==> e in st'.rows && st'.rows[e] == st.rows[e])
            && forall k :: 0 <= k < |contacts| ==>
                 && ContactEmail(registry, contacts[k]).Ok?
                 && ContactEmail(registry, contacts[k]).value in st'.rows
                 && st'.rows[ContactEmail(registry, contacts[k]).value] == individuals[k]
  {
    if contacts != [] {
      var init := contacts[..|contacts| - 1];
      ResolveAllRows(registry, init, st);
      var (individuals, st1) := ResolveAll(registry, init, st).value;
      var email := ContactEmail(registry, contacts[|contacts| - 1]).value;
      var (individual, st2) := GetOrCreate(st1, email);
      var result := individuals + [individual];
      assert ResolveAll(registry, contacts, st).value == (result, st2);
      forall k | 0 <= k < |contacts|
        ensures ContactEmail(registry, contacts[k]).Ok?
        ensures ContactEmail(registry, contacts[k]).value in st2.rows
        ensures st2.rows[ContactEmail(registry, contacts[k]).value] == result[k]
      {
        if k < |init| {
          assert contacts[k] == init[k];
          assert result[k] == individuals[k];
        }
      }
    }
  }

  /** Resolution keeps the store valid: one row per email, under its own email, with distinct ids. */
  lemma {:induction false} ResolveAllValid(registry: Registry, contacts: seq<ServiceContact>, st: Store)
    requires StoreValid(st)
    requires ResolveAll(registry, contacts, st).Ok?
    ensures StoreValid(ResolveAll(registry, contacts, st).value.1)
  {
    if contacts != [] {
      var init := contacts[..|contacts| - 1];
      ResolveAllValid(registry, init, st);
      var st1 := ResolveAll(registry, init, st).value.1;
      GetOrCreateValid(st1, ContactEmail(registry, contacts[|contacts| - 1]).value);
    }
  }

  /** Each appended individual carries the email its contact resolves to, in contact order. */
  lemma ResolveAllEntries(registry: Registry, contacts: seq<ServiceContact>, st: Store)
    requires StoreValid(st)
    requires ResolveAll(registry, contacts, st).Ok?
    ensures var individuals := ResolveAll(registry, contacts, st).value.0;
            forall k :: 0 <= k < |contacts| ==> ContactEmail(registry, contacts[k]) == Ok(individuals[k].email)
  {
    ResolveAllRows(registry, contacts, st);
    ResolveAllValid(registry, contacts, st);
  }

  /** The rows gained are exactly those of the emails the contacts resolve to. */
  lemma {:induction false} ResolveAllKeys(registry: Registry, contacts: seq<ServiceContact>, st: Store)
    requires ResolveAll(registry, contacts, st).Ok?
    ensures ResolveAll(registry, contacts, st).value.1.rows.Keys == st.rows.Keys + Emails(registry, contacts)
  {
    if contacts != [] {
      var init := contacts[..|contacts| - 1];
      var last := contacts[|contacts| - 1];
      ResolveAllKeys(registry, init, st);
      var st1 := ResolveAll(registry, init, st).value.1;
      var email := ContactEmail(registry, last).value;
      var st2 := GetOrCreate(st1, email).1;
      assert ResolveAll(registry, contacts, st).value.1 == st2;
      assert st2.rows.Keys == st1.rows.Keys + {email};
      assert init + [last] == contacts;
      EmailsSnoc(registry, init, last);
    }
  }

  lemma EmailsSnoc(registry: Registry, init: seq<ServiceContact>, last: ServiceContact)
    requires ContactEmail(registry, last).Ok?
    ensures Emails(registry, init + [last]) == Emails(registry, init) + {ContactEmail(registry, last).value}
  {
    var contacts := init + [last];
    forall e | e in Emails(registry, contacts) ensures e in Emails(registry, init) + {ContactEmail(registry, last).value} {
      var k :| 0 <= k < |contacts| && ContactEmail(registry, contacts[k]).Ok? && ContactEmail(registry, contacts[k]).value == e;
      if k < |init| { assert contacts[k] == init[k]; }
    }
    forall e | e in Emails(registry, init) ensures e in Emails(registry, contacts) {
      var k :| 0 <= k < |init| && ContactEmail(registry, init[k]).Ok? && ContactEmail(registry, init[k]).value == e;
      assert contacts[k] == init[k];
    }
    assert contacts[|init|] == last;
  }

  /** Contacts that resolve to the same email get the same individual, not a second one. */
  lemma SameEmailSameIndividual(registry: Registry, contacts: seq<ServiceContact>, st: Store, j: nat, k: nat)
    requires ResolveAll(registry, contacts, st).Ok?
    requires j < |contacts| && k < |contacts|
    requires ContactEmail(registry, contacts[j]) == ContactEmail(registry, contacts[k])
    ensures var individuals := ResolveAll(registry, contacts, st).value.0;
            individuals[j] == individuals[k]
  {
    ResolveAllRows(registry, contacts, st);
  }

  /** Every one of the contacts resolves to an email. */
  predicate AllResolve(registry: Registry, contacts: seq<ServiceContact>)
  {
    forall k :: 0 <= k < |contacts| ==> ContactEmail(registry, contacts[k]).Ok?
  }

  /** Resolution succeeds exactly when every contact resolves: get-or-create itself never fails. */
  lemma {:induction false} ResolveAllSucceeds(registry: Registry, contacts: seq<ServiceContact>, st: Store)
    ensures ResolveAll(registry, contacts, st).Ok? <==> AllResolve(registry, contacts)
  {
    if contacts != [] {
      var init := contacts[..|contacts| - 1];
      var last := contacts[|contacts| - 1];
      ResolveAllSucceeds(registry, init, st);
      assert contacts == init + [last];
      assert AllResolve(registry, contacts) <==>
             AllResolve(registry, init) && ContactEmail(registry, last).Ok? by {
        if AllResolve(registry, init) && ContactEmail(registry, last).Ok? {
          forall k | 0 <= k < |contacts| ensures ContactEmail(registry, contacts[k]).Ok? {
            if k < |init| { assert contacts[k] == init[k]; }
          }
        }
        if AllResolve(registry, contacts) {
          forall k | 0 <= k < |init| ensures ContactEmail(registry, init[k]).Ok? {
            assert contacts[k] == init[k];
          }
        }
      }
    }
  }

  /** A failed resolution reports the error of the first contact that does not resolve. */
  lemma {:induction false} ResolveAllFirstFailure(registry: Registry, contacts: seq<ServiceContact>, st: Store)
    requires ResolveAll(registry, contacts, st).Err?
    ensures exists k :: && 0 <= k < |contacts|
                        && ContactEmail(registry, contacts[k]) == Err(ResolveAll(registry, contacts, st).error)
                        && AllResolve(registry, contacts[..k])
  {
    var init := contacts[..|contacts| - 1];
    var last := contacts[|contacts| - 1];
    if ResolveAll(registry, init, st).Err? {
      ResolveAllFirstFailure(registry, init, st);
      var k :| && 0 <= k < |init|
               && ContactEmail(registry, init[k]) == Err(ResolveAll(registry, init, st).error)
               && AllResolve(registry, init[..k]);
      assert contacts[k] == init[k] && contacts[..k] == init[..k];
    } else {
      ResolveAllSucceeds(registry, init, st);
      assert contacts[..|init|] == init;
    }
  }

  /** Resolving one contact more is one more step. */
  lemma ResolveAllExtend(registry: Registry, contacts: seq<ServiceContact>, i: nat, st: Store)
    requires i < |contacts|
    ensures ResolveAll(registry, contacts[..i + 1], st)
         == Step(registry, ResolveAll(registry, contacts[..i], st), contacts[i])
  {
    assert contacts[..i + 1][..i] == contacts[..i];
  }

  /** A failure among the first `n` contacts is the failure of them all. */
  lemma {:induction false} PrefixFailure(registry: Registry, contacts: seq<ServiceContact>, n: nat, st: Store)
    requires n <= |contacts|
    requires ResolveAll(registry, contacts[..n], st).Err?
    ensures ResolveAll(registry, contacts, st) == ResolveAll(registry, contacts[..n], st)
    decreases |contacts|
  {
    if n < |contacts| {
      var init := contacts[..|contacts| - 1];
      assert init[..n] == contacts[..n];
      PrefixFailure(registry, init, n, st);
    } else {
      assert contacts[..n] == contacts;
    }
  }

  /**
   * Resolution stops at contact `n` with error `e`: the contacts before it resolve, and it
   * does not.
   */
  predicate FailsAt(registry: Registry, contacts: seq<ServiceContact>, st: Store, n: int, e: ResolveError)
  {
    && 0 <= n < |contacts|
    && ResolveAll(registry, contacts[..n], st).Ok?
    && ContactEmail(registry, contacts[n]) == Err(e)
  }

  /** A resolution that stops at contact `n` fails with that contact's error. */
  lemma FailsAtIsFailure(registry: Registry, contacts: seq<ServiceContact>, st: Store, n: int, e: ResolveError)
    requires FailsAt(registry, contacts, st, n, e)
    ensures ResolveAll(registry, contacts, st) == Err(e)
  {
    ResolveAllExtend(registry, contacts, n, st);
    PrefixFailure(registry, contacts, n + 1, st);
  }

  /** Resolution stops at one contact only. */
  lemma FailsAtUnique(registry: Registry, contacts: seq<ServiceContact>, st: Store,
                      n: int, e: ResolveError, m: int, e': ResolveError)
    requires FailsAt(registry, contacts, st, n, e)
    requires FailsAt(registry, contacts, st, m, e')
    ensures n == m && e == e'
  {
    if m < n {
      assert contacts[..n][m] == contacts[m];
      ResolveAllSucceeds(registry, contacts[..n], st);
    } else if n < m {
      assert contacts[..m][n] == contacts[n];
      ResolveAllSucceeds(registry, contacts[..m], st);
    }
  }

  /** A directory plugin that knows one service account. */
  function Ldap(externalId: string): Result<string, string>
  {
    if externalId == "svc42" then Ok("a@x.com") else Err("unknown id")
  }

  /** The contact `{ldap, svc42}` resolves, against an empty store, to one new individual for "a@x.com". */
  lemma LdapScenario()
    ensures ResolveAll(map["ldap" := Ldap], [ServiceContact("ldap", "svc42")], Store(map[], 0))
         == Ok(([Individual(0, "a@x.com")], Store(map["a@x.com" := Individual(0, "a@x.com")], 1)))
  {
    var registry := map["ldap" := Ldap];
    var contacts := [ServiceContact("ldap", "svc42")];
    var empty := Store(map[], 0);
    assert contacts[..0] == [];
    assert ResolveAll(registry, contacts[..0], empty) == Ok(([], empty));
    assert ContactEmail(registry, contacts[0]) == Ok("a@x.com");
    assert GetOrCreate(empty, "a@x.com") == (Individual(0, "a@x.com"), Store(map["a@x.com" := Individual(0, "a@x.com")], 1));
    assert ResolveAll(registry, contacts, empty) == Step(registry, Ok(([], empty)), contacts[0]);
    assert [] + [Individual(0, "a@x.com")] == [Individual(0, "a@x.com")];
  }

  /** The same contact twice gives the same individual twice and a single row. */
  lemma RepeatedContactScenario()
    ensures ResolveAll(map["ldap" := Ldap], [ServiceContact("ldap", "svc42"), ServiceContact("ldap", "svc42")], Store(map[], 0))
         == Ok(([Individual(0, "a@x.com"), Individual(0, "a@x.com")],
                Store(map["a@x.com" := Individual(0, "a@x.com")], 1)))
  {
    var registry := map["ldap" := Ldap];
    var contacts := [ServiceContact("ldap", "svc42"), ServiceContact("ldap", "svc42")];
    var one := Store(map["a@x.com" := Individual(0, "a@x.com")], 1);
    assert contacts[..1] == [ServiceContact("ldap", "svc42")];
    LdapScenario();
    assert ContactEmail(registry, contacts[1]) == Ok("a@x.com");
    assert GetOrCreate(one, "a@x.com") == (Individual(0, "a@x.com"), one);
    assert ResolveAll(registry, contacts, Store(map[], 0))
        == Step(registry, Ok(([Individual(0, "a@x.com")], one)), contacts[1]);
    assert [Individual(0, "a@x.com")] + [Individual(0, "a@x.com")] == [Individual(0, "a@x.com"), Individual(0, "a@x.com")];
  }

  /** An unregistered second contact fails the whole resolution, however the first one resolved. */
  lemma UnregisteredSecondContactScenario()
    ensures ResolveAll(map["ldap" := Ldap], [ServiceContact("ldap", "svc42"), ServiceContact("okta", "u1")], Store(map[], 0))
         == Err(PluginNotFound("okta"))
  {
  }

  /**
   * The loop of `get`: each service contact of the recommendation, in order, is resolved and
   * its individual appended to the recommendation's individual contacts. The first failure
   * stops the loop; nothing is committed here.
   */
  method ResolveServiceContacts(recommendation: Recommendation, registry: Registry, session: Session)
    returns (r: Result<(), ResolveError>)
    modifies recommendation`individualContacts, session
    ensures match ResolveAll(registry, recommendation.serviceContacts, old(session.store))
            case Ok((individuals, st)) =>
              && r == Ok(())
              && recommendation.individualContacts == old(recommendation.individualContacts) + individuals
              && session.store == st
            case Err(e) =>
              && r == Err(e)
              && exists n :: && FailsAt(registry, recommendation.serviceContacts, old(session.store), n, e)
                             && var (individuals, st) := ResolveAll(registry, recommendation.serviceContacts[..n], old(session.store)).value;
                             && recommendation.individualContacts == old(recommendation.individualContacts) + individuals
                             && session.store == st
    ensures session.committed == old(session.committed) && session.commits == old(session.commits)
  {
    ghost var contacts := recommendation.serviceContacts;
    ghost var appended: seq<Individual> := [];
    ghost var st0 := session.store;
    var i := 0;
    assert contacts[..0] == [];
    while i < |recommendation.serviceContacts|
      invariant 0 <= i <= |contacts|
      invariant recommendation.serviceContacts == contacts
      invariant ResolveAll(registry, contacts[..i], st0) == Ok((appended, session.store))
      invariant recommendation.individualContacts == old(recommendation.individualContacts) + appended
      invariant session.committed == old(session.committed) && session.commits == old(session.commits)
    {
      var s := recommendation.serviceContacts[i];
      ResolveAllExtend(registry, contacts, i, st0);
      if s.kind !in registry {
        PrefixFailure(registry, contacts, i + 1, st0);
        assert FailsAt(registry, contacts, st0, i, PluginNotFound(s.kind));
        return Err(PluginNotFound(s.kind));
      }
      var p := registry[s.kind];
      var individualEmail := p(s.externalId);
      if individualEmail.Err? {
        PrefixFailure(registry, contacts, i + 1, st0);
        assert FailsAt(registry, contacts, st0, i, ProviderFailed(s.kind, s.externalId, individualEmail.error));
        return Err(ProviderFailed(s.kind, s.externalId, individualEmail.error));
      }
      assert ContactEmail(registry, s) == Ok(individualEmail.value);
      var individual := session.GetOrCreateIndividual(individualEmail.value);
      recommendation.individualContacts := recommendation.individualContacts + [individual];
      appended := appended + [individual];
      i := i + 1;
    }
    assert contacts[..i] == contacts;
    return Ok(());
  }

  /**
   * `get`: routes the incident (its type and priority given as attribute maps) and resolves
   * the recommendation's service contacts into the session. On success the session is
   * committed once and the recommendation's individual contacts, extended by one individual
   * per service contact carrying that contact's email, are returned with its team contacts
   * unchanged. On a failure nothing is committed, and the session keeps the uncommitted rows
   * of the contacts resolved before the failing one. Either way the session's rows stay valid.
   */
  method Get(incidentType: Attributes, incidentPriority: Attributes, description: string,
             route: RouteService<Attributes>, registry: Registry, session: Session)
    returns (r: Result<(seq<Individual>, seq<TeamRef>), ResolveError>)
    requires StoreValid(session.store)
    modifies session
    ensures StoreValid(session.store)
    ensures var recommended := route(BuildRequest(description, incidentType, incidentPriority));
            match ResolveAll(registry, recommended.serviceContacts, old(session.store))
            case Ok((individuals, st)) =>
              && r == Ok((recommended.individualContacts + individuals, recommended.teamContacts))
              && (forall k :: 0 <= k < |individuals| ==>
                    ContactEmail(registry, recommended.serviceContacts[k]) == Ok(individuals[k].email))
              && session.store == st && session.committed == st
              && session.commits == old(session.commits) + 1
            case Err(e) =>
              && r == Err(e)
              && (exists n :: && FailsAt(registry, recommended.serviceContacts, old(session.store), n, e)
                              && session.store == ResolveAll(registry, recommended.serviceContacts[..n], old(session.store)).value.1)
              && session.committed == old(session.committed) && session.commits == old(session.commits)
  {
    ghost var st0 := session.store;
    var routeIn := BuildRequest(description, incidentType, incidentPriority);
    var recommendation := new Recommendation(route(routeIn));
    ghost var contacts := recommendation.serviceContacts;
    var resolved := ResolveServiceContacts(recommendation, registry, session);
    if resolved.Err? {
      ghost var n :| && FailsAt(registry, contacts, st0, n, resolved.error)
                     && session.store == ResolveAll(registry, contacts[..n], st0).value.1;
      ResolveAllValid(registry, contacts[..n], st0);
      return Err(resolved.error);
    }
    ResolveAllValid(registry, contacts, st0);
    ResolveAllEntries(registry, contacts, st0);
    session.Commit();
    return Ok((recommendation.individualContacts, recommendation.teamContacts));
  }
}
