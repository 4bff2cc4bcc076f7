/** A snapshot's typed detail (crates/usage-core/src/detail.rs): which keys it carries, filling the
    missing ones from another detail, and removing keys again. A key is a field name; `extra` may
    hold any name, also one that belongs to a typed field. */
module SnapshotDetails {
  import opened Sequences
  import opened Wrappers

  /** A key string: one of the thirteen typed names, or anything else. */
  datatype Key =
    | Cost | Activity | ResetCredits
    | WebAuthoritative | Estimate | Email | AccountEmail | AccountDisplayName
    | CredentialProfile | KeychainAccount | PlanType | SubscriptionType | CollectionMode
    | Other(name: string)

  /** The contents of a field; nothing here looks inside. */
  datatype Value = Value(content: string)

  datatype Detail = Detail(
    cost: Option<Value>, activity: Option<Value>, resetCredits: Option<Value>,
    webAuthoritative: Option<Value>, estimate: Option<Value>, email: Option<Value>,
    accountEmail: Option<Value>, accountDisplayName: Option<Value>, credentialProfile: Option<Value>,
    keychainAccount: Option<Value>, planType: Option<Value>, subscriptionType: Option<Value>,
    collectionMode: Option<Value>,
    extra: map<Key, Value>)

  predicate Scalar(k: Key) {
    k.WebAuthoritative? || k.Estimate? || k.Email? || k.AccountEmail? || k.AccountDisplayName?
    || k.CredentialProfile? || k.KeychainAccount? || k.PlanType? || k.SubscriptionType? || k.CollectionMode?
  }

  predicate HasScalar(d: Detail, k: Key) {
    match k
    case WebAuthoritative => d.webAuthoritative.Some?
    case Estimate => d.estimate.Some?
    case Email => d.email.Some?
    case AccountEmail => d.accountEmail.Some?
    case AccountDisplayName => d.accountDisplayName.Some?
    case CredentialProfile => d.credentialProfile.Some?
    case KeychainAccount => d.keychainAccount.Some?
    case PlanType => d.planType.Some?
    case SubscriptionType => d.subscriptionType.Some?
    case CollectionMode => d.collectionMode.Some?
    case _ => false
  }

  /** What `d` holds under `k`, in the place where the merge looks for it. */
  function Get(d: Detail, k: Key): Option<Value> {
    match k
    case Cost => d.cost
    case Activity => d.activity
    case ResetCredits => d.resetCredits
    case WebAuthoritative => d.webAuthoritative
    case Estimate => d.estimate
    case Email => d.email
    case AccountEmail => d.accountEmail
    case AccountDisplayName => d.accountDisplayName
    case CredentialProfile => d.credentialProfile
    case KeychainAccount => d.keychainAccount
    case PlanType => d.planType
    case SubscriptionType => d.subscriptionType
    case CollectionMode => d.collectionMode
    case Other(_) => if k in d.extra then Some(d.extra[k]) else None
  }

  predicate ContainsKey(d: Detail, k: Key) {
    if k.Cost? then d.cost.Some?
    else if k.Activity? then d.activity.Some?
    else if k.ResetCredits? then d.resetCredits.Some?
    else if Scalar(k) then HasScalar(d, k)
    else k in d.extra
  }

  function CopyKey(d: Detail, k: Key, other: Detail): Detail {
    match k
    case Cost => d.(cost := other.cost)
    case Activity => d.(activity := other.activity)
    case ResetCredits => d.(resetCredits := other.resetCredits)
    case WebAuthoritative => d.(webAuthoritative := other.webAuthoritative)
    case Estimate => d.(estimate := other.estimate)
    case Email => d.(email := other.email)
    case AccountEmail => d.(accountEmail := other.accountEmail)
    case AccountDisplayName => d.(accountDisplayName := other.accountDisplayName)
    case CredentialProfile => d.(credentialProfile := other.credentialProfile)
    case KeychainAccount => d.(keychainAccount := other.keychainAccount)
    case PlanType => d.(planType := other.planType)
    case SubscriptionType => d.(subscriptionType := other.subscriptionType)
    case CollectionMode => d.(collectionMode := other.collectionMode)
    case Other(_) => if k in other.extra then d.(extra := d.extra[k := other.extra[k]]) else d
  }

  function ClearKey(d: Detail, k: Key): Detail {
    match k
    case Cost => d.(cost := None)
    case Activity => d.(activity := None)
    case ResetCredits => d.(resetCredits := None)
    case WebAuthoritative => d.(webAuthoritative := None)
    case Estimate => d.(estimate := None)
    case Email => d.(email := None)
    case AccountEmail => d.(accountEmail := None)
    case AccountDisplayName => d.(accountDisplayName := None)
    case CredentialProfile => d.(credentialProfile := None)
    case KeychainAccount => d.(keychainAccount := None)
    case PlanType => d.(planType := None)
    case SubscriptionType => d.(subscriptionType := None)
    case CollectionMode => d.(collectionMode := None)
    case Other(_) => d.(extra := d.extra - {k})
  }

  const TYPED_KEYS: seq<Key> := [Cost, Activity, ResetCredits, WebAuthoritative, Estimate, Email,
    AccountEmail, AccountDisplayName, CredentialProfile, KeychainAccount, PlanType, SubscriptionType, CollectionMode]

  predicate Typed(k: Key) {
    !k.Other?
  }

  /** The keys `present_keys` lists: what the fields hold, and every name in `extra`. */
  function Present(d: Detail): set<Key> {
    (set k | k in TYPED_KEYS && ContainsKey(d, k)) + d.extra.Keys
  }

  /** What filling contributes: the listed keys of `other` that are absent here. */
  function Contributed(d: Detail, other: Detail): set<Key> {
    set k | k in Present(other) && !ContainsKey(d, k)
  }

  function First(mine: Option<Value>, theirs: Option<Value>): Option<Value> {
    if mine.Some? then mine else theirs
  }

  /** First writer wins, field by field. */
  function Filled(d: Detail, other: Detail): Detail {
    Detail(First(d.cost, other.cost), First(d.activity, other.activity),
           First(d.resetCredits, other.resetCredits), First(d.webAuthoritative, other.webAuthoritative),
           First(d.estimate, other.estimate), First(d.email, other.email),
           First(d.accountEmail, other.accountEmail), First(d.accountDisplayName, other.accountDisplayName),
           First(d.credentialProfile, other.credentialProfile), First(d.keychainAccount, other.keychainAccount),
           First(d.planType, other.planType), First(d.subscriptionType, other.subscriptionType),
           First(d.collectionMode, other.collectionMode),
           (map k | k in other.extra && !Typed(k) :: other.extra[k]) + d.extra)
  }

  function Unless(removed: bool, v: Option<Value>): Option<Value> {
    if removed then None else v
  }

  function Removed(d: Detail, keys: set<Key>): Detail {
    Detail(Unless(Cost in keys, d.cost), Unless(Activity in keys, d.activity),
           Unless(ResetCredits in keys, d.resetCredits), Unless(WebAuthoritative in keys, d.webAuthoritative),
           Unless(Estimate in keys, d.estimate), Unless(Email in keys, d.email),
           Unless(AccountEmail in keys, d.accountEmail), Unless(AccountDisplayName in keys, d.accountDisplayName),
           Unless(CredentialProfile in keys, d.credentialProfile), Unless(KeychainAccount in keys, d.keychainAccount),
           Unless(PlanType in keys, d.planType), Unless(SubscriptionType in keys, d.subscriptionType),
           Unless(CollectionMode in keys, d.collectionMode),
           d.extra - (set k | k in keys && !Typed(k)))
  }

  // ----- Details are determined by what they hold -----

  /** The part of `extra` under typed names, which no operation reads or writes. */
  function Shadow(d: Detail): map<Key, Value> {
    map k | k in d.extra && Typed(k) :: d.extra[k]
  }

  lemma Extensional(a: Detail, b: Detail)
    requires forall k :: Get(a, k) == Get(b, k)
    requires Shadow(a) == Shadow(b)
    ensures a == b
  {
    SameFields(a, b);
    forall k
      ensures k in a.extra <==> k in b.extra
      ensures k in a.extra ==> k in b.extra && a.extra[k] == b.extra[k]
    {
      if Typed(k) {
        assert k in Shadow(a) <==> k in Shadow(b);
      } else {
        assert Get(a, k) == Get(b, k);
      }
    }
    assert a.extra == b.extra;
  }

  lemma SameFields(a: Detail, b: Detail)
    requires forall k :: Get(a, k) == Get(b, k)
    ensures a.(extra := map[]) == b.(extra := map[])
  {
    assert Get(a, Cost) == Get(b, Cost);
    assert Get(a, Activity) == Get(b, Activity);
    assert Get(a, ResetCredits) == Get(b, ResetCredits);
    assert Get(a, WebAuthoritative) == Get(b, WebAuthoritative);
    assert Get(a, Estimate) == Get(b, Estimate);
    assert Get(a, Email) == Get(b, Email);
    assert Get(a, AccountEmail) == Get(b, AccountEmail);
    assert Get(a, AccountDisplayName) == Get(b, AccountDisplayName);
    assert Get(a, CredentialProfile) == Get(b, CredentialProfile);
    assert Get(a, KeychainAccount) == Get(b, KeychainAccount);
    assert Get(a, PlanType) == Get(b, PlanType);
    assert Get(a, SubscriptionType) == Get(b, SubscriptionType);
    assert Get(a, CollectionMode) == Get(b, CollectionMode);
  }

  lemma ContainsIsGet(d: Detail, k: Key)
    ensures ContainsKey(d, k) <==> Get(d, k).Some?
  {
  }

  lemma PresentIs(d: Detail, k: Key)
    ensures k in Present(d) <==> Get(d, k).Some? || k in d.extra
  {
    ContainsIsGet(d, k);
    TypedKeysAreListed(k);
  }

  lemma TypedKeysAreListed(k: Key)
    ensures k in TYPED_KEYS <==> Typed(k)
  {
    match k
    case Cost => assert TYPED_KEYS[0] == k;
    case Activity => assert TYPED_KEYS[1] == k;
    case ResetCredits => assert TYPED_KEYS[2] == k;
    case WebAuthoritative => assert TYPED_KEYS[3] == k;
    case Estimate => assert TYPED_KEYS[4] == k;
    case Email => assert TYPED_KEYS[5] == k;
    case AccountEmail => assert TYPED_KEYS[6] == k;
    case AccountDisplayName => assert TYPED_KEYS[7] == k;
    case CredentialProfile => assert TYPED_KEYS[8] == k;
    case KeychainAccount => assert TYPED_KEYS[9] == k;
    case PlanType => assert TYPED_KEYS[10] == k;
    case SubscriptionType => assert TYPED_KEYS[11] == k;
    case CollectionMode => assert TYPED_KEYS[12] == k;
    case Other(_) =>
  }

  lemma GetCopied(d: Detail, k: Key, other: Detail, j: Key)
    ensures Get(CopyKey(d, k, other), j)
            == if j == k && (Typed(k) || k in other.extra) then Get(other, k) else Get(d, j)
  {
  }

  lemma ShadowCopied(d: Detail, k: Key, other: Detail)
    ensures Shadow(CopyKey(d, k, other)) == Shadow(d)
  {
  }

  lemma GetCleared(d: Detail, k: Key, j: Key)
    ensures Get(ClearKey(d, k), j) == if j == k then None else Get(d, j)
  {
  }

  lemma ShadowCleared(d: Detail, k: Key)
    ensures Shadow(ClearKey(d, k)) == Shadow(d)
  {
  }

  lemma GetFilled(d: Detail, other: Detail, k: Key)
    ensures Get(Filled(d, other), k) == First(Get(d, k), Get(other, k))
  {
  }

  lemma ShadowFilled(d: Detail, other: Detail)
    ensures Shadow(Filled(d, other)) == Shadow(d)
  {
  }

  lemma GetRemoved(d: Detail, keys: set<Key>, k: Key)
    ensures Get(Removed(d, keys), k) == if k in keys then None else Get(d, k)
  {
  }

  lemma ShadowRemoved(d: Detail, keys: set<Key>)
    ensures Shadow(Removed(d, keys)) == Shadow(d)
  {
  }

  class SnapshotDetail {
    var cost: Option<Value>
    var activity: Option<Value>
    var resetCredits: Option<Value>
    var webAuthoritative: Option<Value>
    var estimate: Option<Value>
    var email: Option<Value>
    var accountEmail: Option<Value>
    var accountDisplayName: Option<Value>
    var credentialProfile: Option<Value>
    var keychainAccount: Option<Value>
    var planType: Option<Value>
    var subscriptionType: Option<Value>
    var collectionMode: Option<Value>
    var extra: map<Key, Value>

    function Contents(): Detail
      reads this
    {
      Detail(cost, activity, resetCredits, webAuthoritative, estimate, email, accountEmail,
             accountDisplayName, credentialProfile, keychainAccount, planType, subscriptionType, collectionMode, extra)
    }

    constructor (d: Detail)
      ensures Contents() == d
    {
      cost := d.cost;
      activity := d.activity;
      resetCredits := d.resetCredits;
      webAuthoritative := d.webAuthoritative;
      estimate := d.estimate;
      email := d.email;
      accountEmail := d.accountEmail;
      accountDisplayName := d.accountDisplayName;
      credentialProfile := d.credentialProfile;
      keychainAccount := d.keychainAccount;
      planType := d.planType;
      subscriptionType := d.subscriptionType;
      collectionMode := d.collectionMode;
      extra := d.extra;
    }

    predicate HasScalarField(k: Key)
      reads this
    {
      match k
      case WebAuthoritative => webAuthoritative.Some?
      case Estimate => estimate.Some?
      case Email => email.Some?
      case AccountEmail => accountEmail.Some?
      case AccountDisplayName => accountDisplayName.Some?
      case CredentialProfile => credentialProfile.Some?
      case KeychainAccount => keychainAccount.Some?
      case PlanType => planType.Some?
      case SubscriptionType => subscriptionType.Some?
      case CollectionMode => collectionMode.Some?
      case _ => false
    }

    predicate Contains(k: Key)
      reads this
      ensures Contains(k) == ContainsKey(Contents(), k)
    {
      if k.Cost? then cost.Some?
      else if k.Activity? then activity.Some?
      else if k.ResetCredits? then resetCredits.Some?
      else if Scalar(k) then HasScalarField(k)
      else k in extra
    }

    method CopyKeyFrom(k: Key, other: Detail)
      modifies this
      ensures Contents() == CopyKey(old(Contents()), k, other)
    {
      match k {
        case Cost => cost := other.cost;
        case Activity => activity := other.activity;
        case ResetCredits => resetCredits := other.resetCredits;
        case WebAuthoritative => webAuthoritative := other.webAuthoritative;
        case Estimate => estimate := other.estimate;
        case Email => email := other.email;
        case AccountEmail => accountEmail := other.accountEmail;
        case AccountDisplayName => accountDisplayName := other.accountDisplayName;
        case CredentialProfile => credentialProfile := other.credentialProfile;
        case KeychainAccount => keychainAccount := other.keychainAccount;
        case PlanType => planType := other.planType;
        case SubscriptionType => subscriptionType := other.subscriptionType;
        case CollectionMode => collectionMode := other.collectionMode;
        case Other(_) =>
          if k in other.extra {
            extra := extra[k := other.extra[k]];
          }
      }
    }

    method Clear(k: Key)
      modifies this
      ensures Contents() == ClearKey(old(Contents()), k)
    {
      match k {
        case Cost => cost := None;
        case Activity => activity := None;
        case ResetCredits => resetCredits := None;
        case WebAuthoritative => webAuthoritative := None;
        case Estimate => estimate := None;
        case Email => email := None;
        case AccountEmail => accountEmail := None;
        case AccountDisplayName => accountDisplayName := None;
        case CredentialProfile => credentialProfile := None;
        case KeychainAccount => keychainAccount := None;
        case PlanType => planType := None;
        case SubscriptionType => subscriptionType := None;
        case CollectionMode => collectionMode := None;
        case Other(_) => extra := extra - {k};
      }
    }

    /** `fill_missing_from`. */
    method FillMissingFrom(other: Detail) returns (contributed: seq<Key>)
      modifies this
      ensures Contents() == Filled(old(Contents()), other)
      ensures NoDuplicates(contributed)
      ensures (set k | k in contributed) == Contributed(old(Contents()), other)
    {
      ghost var before := Contents();
      contributed := [];
      var keys := PresentKeys(other);
      for i := 0 to |keys|
        invariant Progress(before, Contents(), other, keys[..i], contributed)
      {
        ghost var d := Contents();
        if !Contains(keys[i]) {
          CopyKeyFrom(keys[i], other);
          contributed := contributed + [keys[i]];
          ProgressCopied(before, d, other, keys, i, contributed[..|contributed| - 1]);
        } else {
          ProgressSkipped(before, d, other, keys, i, contributed);
        }
      }
      assert keys[..|keys|] == keys;
      ProgressDone(before, Contents(), other, keys, contributed);
    }

    /** `remove_keys`. */
    method RemoveKeys(keys: seq<Key>)
      modifies this
      ensures Contents() == Removed(old(Contents()), set k | k in keys)
    {
      ghost var before := Contents();
      for i := 0 to |keys|
        invariant forall k :: Get(Contents(), k) == if k in keys[..i] then None else Get(before, k)
        invariant Shadow(Contents()) == Shadow(before)
      {
        ghost var d := Contents();
        Clear(keys[i]);
        ClearedOneMore(before, d, keys, i);
      }
      assert keys[..|keys|] == keys;
      RemovedAll(before, Contents(), keys);
    }
  }

  // ----- The loops -----

  /** The keys of `table` that `d` holds, in the table's order. */
  method ListTyped(d: Detail, table: seq<Key>) returns (keys: seq<Key>)
    ensures forall k :: k in keys <==> k in table && ContainsKey(d, k)
  {
    hide ContainsKey;
    keys := [];
    for i := 0 to |table|
      invariant forall k :: k in keys <==> k in table[..i] && ContainsKey(d, k)
    {
      assert forall k :: k in table[..i + 1] <==> k in table[..i] || k == table[i];
      if ContainsKey(d, table[i]) {
        keys := keys + [table[i]];
      }
    }
    assert table[..|table|] == table;
  }

  /** The names in a map, each once, in some order. */
  method ListNames(extra: map<Key, Value>) returns (names: seq<Key>)
    ensures NoDuplicates(names) && forall k :: k in names <==> k in extra
  {
    names := [];
    var rest := extra.Keys;
    while rest != {}
      invariant rest <= extra.Keys && NoDuplicates(names)
      invariant forall k :: k in names <==> k in extra && k !in rest
      decreases |rest|
    {
      var k :| k in rest;
      rest := rest - {k};
      names := names + [k];
    }
  }

  /** `present_keys`: the typed keys in order, then the names in `extra`, in some order. */
  method PresentKeys(d: Detail) returns (keys: seq<Key>)
    ensures forall k :: k in keys <==> k in Present(d)
    ensures forall i, j :: 0 <= i < j < |keys| && keys[i] == keys[j] ==> ContainsKey(d, keys[i])
  {
    hide ContainsKey;
    var typed := ListTyped(d, TYPED_KEYS);
    var names := ListNames(d.extra);
    keys := typed + names;
    forall i, j | 0 <= i < j < |keys| && keys[i] == keys[j]
      ensures ContainsKey(d, keys[i])
    {
      if i < |typed| {
        assert keys[i] == typed[i] && typed[i] in typed;
      }
    }
  }

  /** Where the filling loop stands once the keys in `done` have been handled. */
  ghost predicate Progress(before: Detail, d: Detail, other: Detail, done: seq<Key>, contributed: seq<Key>) {
    && (forall k :: Get(d, k) == First(Get(before, k), if k in done then Get(other, k) else None))
    && Shadow(d) == Shadow(before)
    && NoDuplicates(contributed)
    && (forall k :: k in contributed <==> k in done && Get(before, k).None?)
  }

  lemma ProgressCopied(before: Detail, d: Detail, other: Detail, keys: seq<Key>, i: nat, contributed: seq<Key>)
    requires i < |keys| && Progress(before, d, other, keys[..i], contributed)
    requires keys[i] in Present(other) && !ContainsKey(d, keys[i])
    requires forall j :: 0 <= j < i && keys[j] == keys[i] ==> ContainsKey(other, keys[i])
    ensures Progress(before, CopyKey(d, keys[i], other), other, keys[..i + 1], contributed + [keys[i]])
  {
    var k := keys[i];
    PresentIs(other, k);
    ContainsIsGet(d, k);
    ContainsIsGet(other, k);
    hide ContainsKey;
    hide Present;
    hide Shadow;
    hide CopyKey;
    forall j
      ensures Get(CopyKey(d, k, other), j)
              == First(Get(before, j), if j in keys[..i + 1] then Get(other, j) else None)
    {
      GetCopied(d, k, other, j);
      assert j in keys[..i + 1] <==> j in keys[..i] || j == k;
    }
    ShadowCopied(d, k, other);
    assert forall j :: j in keys[..i + 1] <==> j in keys[..i] || j == k;
    assert k !in keys[..i];
  }

  lemma ProgressSkipped(before: Detail, d: Detail, other: Detail, keys: seq<Key>, i: nat, contributed: seq<Key>)
    requires i < |keys| && Progress(before, d, other, keys[..i], contributed) && ContainsKey(d, keys[i])
    ensures Progress(before, d, other, keys[..i + 1], contributed)
  {
  }

  lemma ProgressDone(before: Detail, d: Detail, other: Detail, keys: seq<Key>, contributed: seq<Key>)
    requires Progress(before, d, other, keys, contributed) && forall k :: k in keys <==> k in Present(other)
    ensures d == Filled(before, other) && (set k | k in contributed) == Contributed(before, other)
  {
    forall k
      ensures Get(d, k) == Get(Filled(before, other), k)
    {
      GetFilled(before, other, k);
      PresentIs(other, k);
    }
    ShadowFilled(before, other);
    Extensional(d, Filled(before, other));
    forall k
      ensures k in contributed <==> k in Contributed(before, other)
    {
      ContainsIsGet(before, k);
    }
  }

  lemma ClearedOneMore(before: Detail, d: Detail, keys: seq<Key>, i: nat)
    requires i < |keys| && Shadow(d) == Shadow(before)
    requires forall k :: Get(d, k) == if k in keys[..i] then None else Get(before, k)
    ensures forall k :: Get(ClearKey(d, keys[i]), k) == if k in keys[..i + 1] then None else Get(before, k)
    ensures Shadow(ClearKey(d, keys[i])) == Shadow(before)
  {
    forall k
      ensures Get(ClearKey(d, keys[i]), k) == if k in keys[..i + 1] then None else Get(before, k)
    {
      GetCleared(d, keys[i], k);
      assert k in keys[..i + 1] <==> k in keys[..i] || k == keys[i];
    }
    ShadowCleared(d, keys[i]);
  }

  lemma RemovedAll(before: Detail, d: Detail, keys: seq<Key>)
    requires Shadow(d) == Shadow(before)
    requires forall k :: Get(d, k) == if k in keys then None else Get(before, k)
    ensures d == Removed(before, set k | k in keys)
  {
    var removed := set k | k in keys;
    forall k
      ensures Get(d, k) == Get(Removed(before, removed), k)
    {
      GetRemoved(before, removed, k);
    }
    ShadowRemoved(before, removed);
    Extensional(d, Removed(before, removed));
  }

  // ----- Theorems -----

  /** Removing what a fill contributed gives back the detail as it was, whatever `extra` holds. */
  lemma RemovalUndoesFill(d: Detail, other: Detail)
    ensures Removed(Filled(d, other), Contributed(d, other)) == d
  {
    var filled, keys := Filled(d, other), Contributed(d, other);
    forall k
      ensures Get(Removed(filled, keys), k) == Get(d, k)
    {
      GetRemoved(filled, keys, k);
      GetFilled(d, other, k);
      PresentIs(other, k);
      ContainsIsGet(d, k);
    }
    ShadowRemoved(filled, keys);
    ShadowFilled(d, other);
    Extensional(Removed(filled, keys), d);
  }

  /** So one dataset's contribution can be replaced by a newer one, as if the older had never been. */
  lemma ContributionIsReplaceable(d: Detail, older: Detail, newer: Detail)
    ensures Filled(Removed(Filled(d, older), Contributed(d, older)), newer) == Filled(d, newer)
  {
    RemovalUndoesFill(d, older);
  }

  lemma FillIsAssociative(a: Detail, b: Detail, c: Detail)
    ensures Filled(Filled(a, b), c) == Filled(a, Filled(b, c))
  {
    forall k
      ensures Get(Filled(Filled(a, b), c), k) == Get(Filled(a, Filled(b, c)), k)
    {
      GetFilled(Filled(a, b), c, k);
      GetFilled(a, b, k);
      GetFilled(a, Filled(b, c), k);
      GetFilled(b, c, k);
    }
    ShadowFilled(Filled(a, b), c);
    ShadowFilled(a, b);
    ShadowFilled(a, Filled(b, c));
    Extensional(Filled(Filled(a, b), c), Filled(a, Filled(b, c)));
  }

  /** The keys a change made present. */
  function NewlyPresent(before: Detail, after: Detail): set<Key> {
    set k | k in Present(after) && ContainsKey(after, k) && !ContainsKey(before, k)
  }

  /** `other` lists a typed name only because `extra` holds it, and nothing is there under that name. */
  predicate Phantom(d: Detail, other: Detail, k: Key) {
    Typed(k) && k in other.extra && !ContainsKey(other, k) && !ContainsKey(d, k)
  }

  lemma ContributedKey(d: Detail, other: Detail, k: Key)
    ensures k in Contributed(d, other) <==> k in NewlyPresent(d, Filled(d, other)) || Phantom(d, other, k)
    ensures Phantom(d, other, k) ==> k !in NewlyPresent(d, Filled(d, other))
  {
    var filled := Filled(d, other);
    GetFilled(d, other, k);
    PresentIs(other, k);
    PresentIs(filled, k);
    ContainsIsGet(d, k);
    ContainsIsGet(other, k);
    ContainsIsGet(filled, k);
    hide Filled;
    hide ContainsKey;
    hide Present;
  }

  /** The contributed keys are the newly present ones exactly when none of them is a phantom. */
  lemma ContributedIsNew(d: Detail, other: Detail)
    ensures Contributed(d, other) == NewlyPresent(d, Filled(d, other)) <==> forall k :: !Phantom(d, other, k)
  {
    forall k
      ensures k in Contributed(d, other) <==> k in NewlyPresent(d, Filled(d, other)) || Phantom(d, other, k)
      ensures Phantom(d, other, k) ==> k !in NewlyPresent(d, Filled(d, other))
    {
      ContributedKey(d, other, k);
    }
  }

  /** Such a name is contributed, and still nothing is there under it. */
  lemma PhantomIsContributed(d: Detail, other: Detail)
    requires d.cost.None? && other.cost.None? && Cost in other.extra
    ensures Cost in Contributed(d, other) && !ContainsKey(Filled(d, other), Cost)
  {
    PresentIs(other, Cost);
  }
}
