/** The notification list and its seen keys
    (`frontend/src/stores/notification-store.ts`), both capped.

    The random part of a generated id is a parameter; `createdAt` is left out. */
module Notifications {
  import opened Wrappers

  datatype Notification = Notification(id: string, title: string, body: string, read: bool, keyed: bool)

  /** Newest notification first; keys oldest first. */
  datatype Store = Store(notifications: seq<Notification>, unreadCount: nat, seenEventKeys: seq<string>)

  const EMPTY := Store([], 0, [])

  const CAP := 100

  function Unread(ns: seq<Notification>): nat {
    if ns == [] then 0 else (if ns[0].read then 0 else 1) + Unread(ns[1..])
  }

  /** `slice(0, 100)` */
  function Front<T>(xs: seq<T>): seq<T> {
    if |xs| <= CAP then xs else xs[..CAP]
  }

  /** `slice(-100)` */
  function Back<T>(xs: seq<T>): seq<T> {
    if |xs| <= CAP then xs else xs[|xs| - CAP..]
  }

  /** A key that JavaScript takes for true. */
  predicate Truthy(key: Option<string>) {
    key.Some? && key.value != ""
  }

  /** `keyed` is history: the id is an event key that takes part in
      deduplication.  An empty key is used as an id but is never remembered. */
  function Add(s: Store, title: string, body: string, eventKey: Option<string>, generated: string): Store {
    if Truthy(eventKey) && eventKey.value in s.seenEventKeys then s
    else
      var id := if eventKey.Some? then eventKey.value else generated;
      var ns := Front([Notification(id, title, body, false, Truthy(eventKey))] + s.notifications);
      Store(ns, Unread(ns), if Truthy(eventKey) then Back(s.seenEventKeys + [eventKey.value]) else s.seenEventKeys)
  }

  function WithRead(ns: seq<Notification>, id: string): seq<Notification> {
    seq(|ns|, i requires 0 <= i < |ns| => if ns[i].id == id then ns[i].(read := true) else ns[i])
  }

  function MarkRead(s: Store, id: string): Store {
    var ns := WithRead(s.notifications, id);
    s.(notifications := ns, unreadCount := Unread(ns))
  }

  function AllRead(ns: seq<Notification>): seq<Notification> {
    seq(|ns|, i requires 0 <= i < |ns| => ns[i].(read := true))
  }

  function MarkAllRead(s: Store): Store {
    s.(notifications := AllRead(s.notifications), unreadCount := 0)
  }

  function ClearAll(s: Store): Store {
    s.(notifications := [], unreadCount := 0)
  }

  datatype Action =
    | AddNotification(title: string, body: string, eventKey: Option<string>, generated: string)
    | MarkOneRead(id: string)
    | MarkEveryRead
    | Clear

  function Act(s: Store, a: Action): Store {
    match a
    case AddNotification(title, body, key, generated) => Add(s, title, body, key, generated)
    case MarkOneRead(id) => MarkRead(s, id)
    case MarkEveryRead => MarkAllRead(s)
    case Clear => ClearAll(s)
  }

  function ActAll(s: Store, actions: seq<Action>): Store {
    if actions == [] then s else Act(ActAll(s, actions[..|actions| - 1]), actions[|actions| - 1])
  }

  // ------------------------------------------------------------ the invariant

  /** The event keys in the list, oldest first. */
  function KeyedIds(ns: seq<Notification>): seq<string> {
    if ns == [] then [] else KeyedIds(ns[1..]) + if ns[0].keyed then [ns[0].id] else []
  }

  predicate IsSuffix<T(==)>(xs: seq<T>, ys: seq<T>) {
    |xs| <= |ys| && xs == ys[|ys| - |xs|..]
  }

  predicate Distinct<T(==)>(xs: seq<T>) {
    forall i, j :: 0 <= i < j < |xs| ==> xs[i] != xs[j]
  }

  predicate Valid(s: Store) {
    && |s.notifications| <= CAP && |s.seenEventKeys| <= CAP
    && s.unreadCount == Unread(s.notifications)
    && IsSuffix(KeyedIds(s.notifications), s.seenEventKeys)
    && Distinct(s.seenEventKeys)
  }

  lemma {:induction false} KeyedLength(ns: seq<Notification>)
    ensures |KeyedIds(ns)| <= |ns|
  {
    if ns == [] {
    } else {
      KeyedLength(ns[1..]);
    }
  }

  /** Cutting notifications off the old end cuts keys off the old end. */
  lemma {:induction false} PrefixKeyed(ns: seq<Notification>, k: nat)
    requires k <= |ns|
    ensures IsSuffix(KeyedIds(ns[..k]), KeyedIds(ns))
  {
    if k == 0 {
    } else {
      assert ns[..k][1..] == ns[1..][..k - 1];
      PrefixKeyed(ns[1..], k - 1);
      SuffixSnoc(KeyedIds(ns[1..][..k - 1]), KeyedIds(ns[1..]), if ns[0].keyed then [ns[0].id] else []);
    }
  }

  lemma SuffixSnoc<T>(xs: seq<T>, ys: seq<T>, zs: seq<T>)
    requires IsSuffix(xs, ys)
    ensures IsSuffix(xs + zs, ys + zs)
  {
  }

  lemma SuffixOfSuffix<T>(xs: seq<T>, ys: seq<T>, zs: seq<T>)
    requires IsSuffix(xs, ys) && IsSuffix(ys, zs)
    ensures IsSuffix(xs, zs)
  {
  }

  /** A suffix no longer than the cap survives capping. */
  lemma SuffixOfBack<T>(xs: seq<T>, ys: seq<T>)
    requires IsSuffix(xs, ys) && |xs| <= CAP
    ensures IsSuffix(xs, Back(ys))
  {
  }

  lemma BackIsDistinct<T>(xs: seq<T>, x: T)
    requires Distinct(xs) && x !in xs
    ensures Distinct(Back(xs + [x]))
  {
  }

  /** Adding under the caps keeps the keyed ids a suffix of the seen keys. */
  lemma AddKeepsSuffix(ns: seq<Notification>, keys: seq<string>, n: Notification)
    requires IsSuffix(KeyedIds(ns), keys)
    ensures
      IsSuffix(KeyedIds(Front([n] + ns)), if n.keyed then Back(keys + [n.id]) else keys)
  {
    var all, added := [n] + ns, if n.keyed then [n.id] else [];
    assert all[1..] == ns;
    SuffixSnoc(KeyedIds(ns), keys, added);
    assert keys + [] == keys;
    PrefixKeyed(all, |Front(all)|);
    assert all[..|Front(all)|] == Front(all);
    SuffixOfSuffix(KeyedIds(Front(all)), KeyedIds(all), keys + added);
    KeyedLength(Front(all));
    if n.keyed {
      SuffixOfBack(KeyedIds(Front(all)), keys + [n.id]);
    }
  }

  lemma AddKeepsValid(s: Store, title: string, body: string, key: Option<string>, generated: string)
    requires Valid(s)
    ensures Valid(Add(s, title, body, key, generated))
  {
    if !(Truthy(key) && key.value in s.seenEventKeys) {
      var id := if key.Some? then key.value else generated;
      AddKeepsSuffix(s.notifications, s.seenEventKeys, Notification(id, title, body, false, Truthy(key)));
      if Truthy(key) {
        BackIsDistinct(s.seenEventKeys, key.value);
      }
    }
  }

  lemma {:induction false} ReadingKeepsKeys(ns: seq<Notification>, ms: seq<Notification>)
    requires |ns| == |ms| && forall i :: 0 <= i < |ns| ==> ms[i].id == ns[i].id && ms[i].keyed == ns[i].keyed
    ensures KeyedIds(ms) == KeyedIds(ns)
  {
    if ns == [] {
    } else {
      ReadingKeepsKeys(ns[1..], ms[1..]);
    }
  }

  lemma {:induction false} NoneUnread(ns: seq<Notification>)
    requires forall i :: 0 <= i < |ns| ==> ns[i].read
    ensures Unread(ns) == 0
  {
    if ns == [] {
    } else {
      NoneUnread(ns[1..]);
    }
  }

  lemma ActKeepsValid(s: Store, a: Action)
    requires Valid(s)
    ensures Valid(Act(s, a))
  {
    match a
    case AddNotification(title, body, key, generated) => AddKeepsValid(s, title, body, key, generated);
    case MarkOneRead(id) => ReadingKeepsKeys(s.notifications, WithRead(s.notifications, id));
    case MarkEveryRead =>
      ReadingKeepsKeys(s.notifications, AllRead(s.notifications));
      NoneUnread(AllRead(s.notifications));
    case Clear => assert [] == s.seenEventKeys[|s.seenEventKeys|..];
  }

  /** After any actions: both lists are capped, the counter counts, and the keyed
      ids are the latest seen keys, so that a remembered key is never listed
      twice. */
  lemma {:induction false} AlwaysValid(actions: seq<Action>)
    ensures Valid(ActAll(EMPTY, actions))
  {
    if actions == [] {
      assert KeyedIds([]) == [];
    } else {
      AlwaysValid(actions[..|actions| - 1]);
      ActKeepsValid(ActAll(EMPTY, actions[..|actions| - 1]), actions[|actions| - 1]);
    }
  }

  /** Position of a listed notification among the keyed ids. */
  lemma {:induction false} KeyedAt(ns: seq<Notification>, i: nat) returns (p: nat)
    requires i < |ns| && ns[i].keyed
    ensures p < |KeyedIds(ns)| && KeyedIds(ns)[p] == ns[i].id
    ensures p + |KeyedIds(ns[..i])| + 1 == |KeyedIds(ns)|
  {
    if i == 0 {
      p := |KeyedIds(ns)| - 1;
    } else {
      assert ns[..i][1..] == ns[1..][..i - 1];
      p := KeyedAt(ns[1..], i - 1);
    }
  }

  lemma {:induction false} MoreKeyed(ns: seq<Notification>, i: nat, j: nat)
    requires i < j <= |ns| && ns[i].keyed
    ensures |KeyedIds(ns[..i])| < |KeyedIds(ns[..j])|
  {
    if i == 0 {
      assert ns[..j][0] == ns[0];
    } else {
      assert ns[..i][1..] == ns[1..][..i - 1] && ns[..j][1..] == ns[1..][..j - 1];
      MoreKeyed(ns[1..], i - 1, j - 1);
    }
  }

  lemma ListedKeysDiffer(s: Store, i: nat, j: nat)
    requires Valid(s) && i < j < |s.notifications| && s.notifications[i].keyed && s.notifications[j].keyed
    ensures s.notifications[i].id != s.notifications[j].id
  {
    var p := KeyedAt(s.notifications, i);
    var q := KeyedAt(s.notifications, j);
    MoreKeyed(s.notifications, i, j);
    var skip := |s.seenEventKeys| - |KeyedIds(s.notifications)|;
    assert s.seenEventKeys[skip + p] == s.notifications[i].id && s.seenEventKeys[skip + q] == s.notifications[j].id;
  }

  /** No event key is ever listed twice, whatever was capped away. */
  lemma NoKeyTwice(actions: seq<Action>, s: Store, i: nat, j: nat)
    requires s == ActAll(EMPTY, actions)
    requires i < j < |s.notifications| && s.notifications[i].keyed && s.notifications[j].keyed
    ensures s.notifications[i].id != s.notifications[j].id
  {
    AlwaysValid(actions);
    ListedKeysDiffer(s, i, j);
  }

  /** A listed key is recognised: adding it again changes nothing. */
  lemma ListedKeyIsIgnored(actions: seq<Action>, i: nat, title: string, body: string, generated: string)
    requires
      var ns := ActAll(EMPTY, actions).notifications;
      i < |ns| && ns[i].keyed && ns[i].id != ""
    ensures
      var s := ActAll(EMPTY, actions);
      Add(s, title, body, Some(s.notifications[i].id), generated) == s
  {
    var s := ActAll(EMPTY, actions);
    AlwaysValid(actions);
    var p := KeyedAt(s.notifications, i);
    assert s.seenEventKeys[|s.seenEventKeys| - |KeyedIds(s.notifications)| + p] == s.notifications[i].id;
  }

  /** Added twice in a row, in any store, a key is ignored the second time exactly
      when it is not empty: the empty key is used as an id but not remembered,
      and heads the list twice. */
  lemma EmptyKeyIsListedTwice(s: Store, title: string, body: string, key: string, generated: string)
    ensures
      var once := Add(s, title, body, Some(key), generated);
      var twice := Add(once, title, body, Some(key), generated);
      && (key != "" ==> twice == once)
      && (key == "" ==>
          |twice.notifications| >= 2 && twice.notifications[0].id == twice.notifications[1].id == "")
  {
    var once := Add(s, title, body, Some(key), generated);
    if key != "" && key !in s.seenEventKeys {
      assert (s.seenEventKeys + [key])[|s.seenEventKeys|] == key;
      assert once.seenEventKeys[|once.seenEventKeys| - 1] == key;
    }
  }

  // ------------------------------------------------------ what an action does

  /** The unread notifications with this id. */
  function UnreadAs(ns: seq<Notification>, id: string): nat {
    if ns == [] then 0 else (if !ns[0].read && ns[0].id == id then 1 else 0) + UnreadAs(ns[1..], id)
  }

  predicate SameButRead(n: Notification, m: Notification) {
    m == n.(read := m.read)
  }

  lemma {:induction false} UnreadWithout(ns: seq<Notification>, ms: seq<Notification>, id: string)
    requires |ms| == |ns|
    requires forall i :: 0 <= i < |ns| ==> (ms[i].read <==> ns[i].read || ns[i].id == id)
    ensures Unread(ms) + UnreadAs(ns, id) == Unread(ns)
  {
    if ns == [] {
    } else {
      UnreadWithout(ns[1..], ms[1..], id);
    }
  }

  /** Marking an id read marks the notifications that have it, and no other; the
      counter drops by those of them that were unread. */
  lemma MarkReadMarks(actions: seq<Action>, id: string)
    ensures
      var s := ActAll(EMPTY, actions);
      var e := ActAll(EMPTY, actions + [MarkOneRead(id)]);
      var ns, ms := s.notifications, e.notifications;
      && |ms| == |ns| && e.seenEventKeys == s.seenEventKeys
      && (forall i :: 0 <= i < |ns| ==> SameButRead(ns[i], ms[i]))
      && (forall i :: 0 <= i < |ns| ==> (ms[i].read <==> ns[i].read || ns[i].id == id))
      && e.unreadCount + UnreadAs(ns, id) == s.unreadCount
  {
    assert (actions + [MarkOneRead(id)])[..|actions|] == actions;
    var s := ActAll(EMPTY, actions);
    AlwaysValid(actions);
    UnreadWithout(s.notifications, WithRead(s.notifications, id), id);
  }

  /** A new notification heads the list, unread, and the others follow as they
      were, but for the oldest when there are a hundred. */
  lemma AddedIsFirst(s: Store, title: string, body: string, key: Option<string>, generated: string)
    requires !(Truthy(key) && key.value in s.seenEventKeys)
    ensures
      var ns, ms := s.notifications, Add(s, title, body, key, generated).notifications;
      && |ms| == (if |ns| < CAP then |ns| + 1 else CAP)
      && ms[0] == Notification(match key case Some(k) => k case None => generated, title, body, false, Truthy(key))
      && forall i :: 1 <= i < |ms| ==> ms[i] == ns[i - 1]
  {
  }

  /** Emptying the list forgets no key: one that was listed is ignored afterwards. */
  lemma ClearedKeyIsIgnored(actions: seq<Action>, i: nat, title: string, body: string, generated: string)
    requires
      var ns := ActAll(EMPTY, actions).notifications;
      i < |ns| && ns[i].keyed && ns[i].id != ""
    ensures
      var s := ActAll(EMPTY, actions);
      var e := ActAll(EMPTY, actions + [Clear]);
      && e == Store([], 0, s.seenEventKeys)
      && Add(e, title, body, Some(s.notifications[i].id), generated) == e
  {
    var s := ActAll(EMPTY, actions);
    assert (actions + [Clear])[..|actions|] == actions;
    AlwaysValid(actions);
    var p := KeyedAt(s.notifications, i);
    assert s.seenEventKeys[|s.seenEventKeys| - |KeyedIds(s.notifications)| + p] == s.notifications[i].id;
  }

  lemma EveryoneRead(actions: seq<Action>)
    ensures
      var s := ActAll(EMPTY, actions);
      var e := ActAll(EMPTY, actions + [MarkEveryRead]);
      && |e.notifications| == |s.notifications| && e.seenEventKeys == s.seenEventKeys && e.unreadCount == 0
      && forall i :: 0 <= i < |e.notifications| ==>
          e.notifications[i].read && SameButRead(s.notifications[i], e.notifications[i])
  {
    assert (actions + [MarkEveryRead])[..|actions|] == actions;
  }
}
