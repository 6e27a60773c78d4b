/**
 * The pure part of the newsletter's subscriber store (email_manager.py):
 * subscriber records, the e-mail validation pattern, the read-only queries,
 * what `subscribe` and `unsubscribe` decide and how they change the record
 * list, and the document written to and read from the storage file.
 * The class that owns the list and performs the updates is in EmailManagement.
 */
module SubscriberStore {
  import opened Wrappers
  import opened PyText

  /** One subscriber record (a JSON object in the storage file). `unsubscribedAt`
      is absent until the first unsubscribe. */
  datatype Subscriber = Subscriber(
    email: string,
    name: Option<string>,
    subscribedAt: string,
    active: bool,
    unsubscribeToken: string,
    unsubscribedAt: Option<string>)

  // ---------------------------------------------------------------------------
  // E-mail validation: ^[a-zA-Z0-9._%+-]+@[a-zA-Z0-9.-]+\.[a-zA-Z]{2,}$
  // ---------------------------------------------------------------------------

  predicate IsLetter(c: char) { 'a' <= c <= 'z' || 'A' <= c <= 'Z' }

  predicate IsDigit(c: char) { '0' <= c <= '9' }

  /** The character class of the local part: [a-zA-Z0-9._%+-]. */
  predicate IsLocalChar(c: char) {
    IsLetter(c) || IsDigit(c) || c == '.' || c == '_' || c == '%' || c == '+' || c == '-'
  }

  /** The character class of the domain part: [a-zA-Z0-9.-]. */
  predicate IsDomainChar(c: char) {
    IsLetter(c) || IsDigit(c) || c == '.' || c == '-'
  }

  /** The whole of `s` matches the pattern with its '@' at index `at` and the
      '.' before the final letters at index `dot`. */
  ghost predicate MatchesAt(s: string, at: int, dot: int) {
    && 0 < at && at + 1 < dot && dot + 2 < |s|
    && s[at] == '@' && s[dot] == '.'
    && (forall k :: 0 <= k < at ==> IsLocalChar(s[k]))
    && (forall k :: at < k < dot ==> IsDomainChar(s[k]))
    && (forall k :: dot < k < |s| ==> IsLetter(s[k]))
  }

  /** The whole of `s` matches the address pattern: a non-empty local part, one '@',
      a non-empty domain part, then '.' and at least two letters. */
  ghost predicate MatchesPattern(s: string) {
    exists at, dot :: MatchesAt(s, at, dot)
  }

  /** The first index of `c` in `s`. */
  function IndexOf(s: string, c: char): (r: Option<nat>)
    ensures r.Some? ==> r.value < |s| && s[r.value] == c && forall k :: 0 <= k < r.value ==> s[k] != c
    ensures r.None? ==> forall k :: 0 <= k < |s| ==> s[k] != c
  {
    if s == [] then None
    else if s[0] == c then Some(0)
    else match IndexOf(s[1..], c)
      case None => None
      case Some(i) => Some(i + 1)
  }

  /** The last index of `c` in `s`. */
  function LastIndexOf(s: string, c: char): (r: Option<nat>)
    ensures r.Some? ==> r.value < |s| && s[r.value] == c && forall k :: r.value < k < |s| ==> s[k] != c
    ensures r.None? ==> forall k :: 0 <= k < |s| ==> s[k] != c
  {
    if s == [] then None
    else if s[|s| - 1] == c then Some(|s| - 1)
    else LastIndexOf(s[..|s| - 1], c)
  }

  /** What follows the '@': domain characters only, with a '.' that is not the
      first character and is followed by at least two letters. */
  function DomainMatches(d: string): (ok: bool)
  {
    && (forall k :: 0 <= k < |d| ==> IsDomainChar(d[k]))
    && match LastIndexOf(d, '.')
       case None => false
       case Some(dot) => 1 <= dot && dot + 2 < |d| && forall k :: dot < k < |d| ==> IsLetter(d[k])
  }

  /** A direct decision procedure for the pattern: split at the first '@'. */
  function MatchesShape(s: string): (ok: bool)
  {
    match IndexOf(s, '@')
    case None => false
    case Some(at) => 0 < at && (forall k :: 0 <= k < at ==> IsLocalChar(s[k])) && DomainMatches(s[at + 1..])
  }

  /** The decision procedure accepts exactly the strings that match the pattern. */
  lemma MatchesShapeCorrect(s: string)
    ensures MatchesShape(s) <==> MatchesPattern(s)
  {
    match IndexOf(s, '@')
    case None =>
    case Some(at) => ShapeAgreesWithPattern(s, at);
  }

  lemma ShapeAgreesWithPattern(s: string, at: nat)
    requires at < |s| && s[at] == '@' && forall k :: 0 <= k < at ==> s[k] != '@'
    ensures MatchesPattern(s) <==>
      0 < at && (forall k :: 0 <= k < at ==> IsLocalChar(s[k])) && DomainMatches(s[at + 1..])
  {
    var d := s[at + 1..];
    if MatchesPattern(s) {
      var a, dot :| MatchesAt(s, a, dot);
      // no '@' is a local character, so the '@' of the match is the first one
      assert a == at;
      assert forall k :: 0 <= k < |d| ==> IsDomainChar(d[k]) by {
        forall k | 0 <= k < |d| ensures IsDomainChar(d[k]) {
          assert d[k] == s[at + 1 + k];
          if at + 1 + k > dot { assert IsLetter(s[at + 1 + k]); }
        }
      }
      var last := LastIndexOf(d, '.');
      assert d[dot - at - 1] == '.';
      assert last == Some(dot - at - 1) by {
        assert forall k :: dot - at - 1 < k < |d| ==> d[k] == s[at + 1 + k];
      }
    }
    if 0 < at && (forall k :: 0 <= k < at ==> IsLocalChar(s[k])) && DomainMatches(d) {
      var dot := LastIndexOf(d, '.').value;
      assert MatchesAt(s, at, at + 1 + dot) by {
        forall k | at < k < at + 1 + dot ensures IsDomainChar(s[k]) { assert s[k] == d[k - at - 1]; }
        forall k | at + 1 + dot < k < |s| ensures IsLetter(s[k]) { assert s[k] == d[k - at - 1]; }
      }
    }
  }

  /** `_validate_email`: `re.match` of the pattern. Python's `$` also matches just
      before a final newline, so one trailing "\n" is accepted. */
  function ValidateEmail(email: string): (ok: bool)
  {
    MatchesShape(email) || (email != [] && email[|email| - 1] == '\n' && MatchesShape(email[..|email| - 1]))
  }

  /** `_validate_email` accepts exactly the strings that match the pattern, possibly
      followed by one newline. */
  lemma ValidateEmailMeaning(email: string)
    ensures ValidateEmail(email) <==> (MatchesPattern(email)
      || (email != [] && email[|email| - 1] == '\n' && MatchesPattern(email[..|email| - 1])))
  {
    MatchesShapeCorrect(email);
    if email != [] {
      MatchesShapeCorrect(email[..|email| - 1]);
    }
  }

  /** On a stripped string the trailing-newline case cannot arise: validation is the pattern. */
  lemma ValidateStripped(s: string)
    requires IsStripped(s)
    ensures ValidateEmail(s) <==> MatchesPattern(s)
  {
    ValidateEmailMeaning(s);
    assert s != [] ==> s[|s| - 1] != '\n';
  }

  /** So on a normalised address validation is the pattern. */
  lemma ValidateNormalized(email: string)
    ensures ValidateEmail(Normalize(email)) <==> MatchesPattern(Normalize(email))
  {
    ValidateStripped(Normalize(email));
  }

  // ---------------------------------------------------------------------------
  // Lookups: `next((s for s in self.subscribers if ...), None)`
  // ---------------------------------------------------------------------------

  /** `i` is the position of the first record whose `email` is `email`. */
  ghost predicate IsFirstWithEmail(subs: seq<Subscriber>, email: string, i: int) {
    0 <= i < |subs| && subs[i].email == email && forall j :: 0 <= j < i ==> subs[j].email != email
  }

  /** `i` is the position of the first record whose token is `token`. */
  ghost predicate IsFirstWithToken(subs: seq<Subscriber>, token: string, i: int) {
    0 <= i < |subs| && subs[i].unsubscribeToken == token && forall j :: 0 <= j < i ==> subs[j].unsubscribeToken != token
  }

  /** The position of the first record with exactly this `email`, if any. */
  function FindByEmail(subs: seq<Subscriber>, email: string): (r: Option<nat>)
    ensures r.Some? ==> IsFirstWithEmail(subs, email, r.value)
    ensures r.None? ==> forall j :: 0 <= j < |subs| ==> subs[j].email != email
  {
    if subs == [] then None
    else if subs[0].email == email then Some(0)
    else match FindByEmail(subs[1..], email)
      case None => None
      case Some(i) => Some(i + 1)
  }

  /** The position of the first record with exactly this unsubscribe token, if any. */
  function FindByToken(subs: seq<Subscriber>, token: string): (r: Option<nat>)
    ensures r.Some? ==> IsFirstWithToken(subs, token, r.value)
    ensures r.None? ==> forall j :: 0 <= j < |subs| ==> subs[j].unsubscribeToken != token
  {
    if subs == [] then None
    else if subs[0].unsubscribeToken == token then Some(0)
    else match FindByToken(subs[1..], token)
      case None => None
      case Some(i) => Some(i + 1)
  }

  /** `is_subscribed`: the FIRST record with the normalised address exists and is
      active. Later records with the same address are never consulted. */
  function IsSubscribed(subs: seq<Subscriber>, email: string): (r: bool)
    ensures forall i :: IsFirstWithEmail(subs, Normalize(email), i) ==> (r <==> subs[i].active)
    ensures (forall j :: 0 <= j < |subs| ==> subs[j].email != Normalize(email)) ==> !r
  {
    match FindByEmail(subs, Normalize(email))
    case None => false
    case Some(i) =>
      assert forall k :: IsFirstWithEmail(subs, Normalize(email), k) ==> k == i;
      subs[i].active
  }

  // ---------------------------------------------------------------------------
  // Queries
  // ---------------------------------------------------------------------------

  /** `r` is `s` with some elements deleted, order kept. */
  ghost predicate IsSubsequence<T>(r: seq<T>, s: seq<T>)
    decreases |s|
  {
    if r == [] then true
    else if s == [] then false
    else (r[0] == s[0] && IsSubsequence(r[1..], s[1..])) || IsSubsequence(r, s[1..])
  }

  /** `get_active_subscribers`: the active records, in store order. */
  function ActiveSubscribers(subs: seq<Subscriber>): (r: seq<Subscriber>)
    ensures IsSubsequence(r, subs)
    ensures forall x :: x in r ==> x.active
    ensures forall i :: 0 <= i < |subs| && subs[i].active ==> subs[i] in r
  {
    if subs == [] then []
    else if subs[0].active then [subs[0]] + ActiveSubscribers(subs[1..])
    else ActiveSubscribers(subs[1..])
  }

  /** The inactive records, in store order (the complement of `ActiveSubscribers`). */
  function InactiveSubscribers(subs: seq<Subscriber>): (r: seq<Subscriber>)
    ensures IsSubsequence(r, subs)
    ensures forall x :: x in r ==> !x.active
    ensures forall i :: 0 <= i < |subs| && !subs[i].active ==> subs[i] in r
  {
    if subs == [] then []
    else if subs[0].active then InactiveSubscribers(subs[1..])
    else [subs[0]] + InactiveSubscribers(subs[1..])
  }

  /** The active filter keeps every copy of an active record and no copy of an
      inactive one, as the comprehension does. */
  lemma {:induction false} ActiveSubscribersCounts(subs: seq<Subscriber>)
    ensures forall x :: multiset(ActiveSubscribers(subs))[x] == if x.active then multiset(subs)[x] else 0
  {
    if subs != [] {
      assert subs == [subs[0]] + subs[1..];
      ActiveSubscribersCounts(subs[1..]);
    }
  }

  /** The inactive records are exactly the copies the active filter drops. */
  lemma {:induction false} InactiveSubscribersCounts(subs: seq<Subscriber>)
    ensures forall x :: multiset(InactiveSubscribers(subs))[x] == if x.active then 0 else multiset(subs)[x]
    ensures multiset(ActiveSubscribers(subs)) + multiset(InactiveSubscribers(subs)) == multiset(subs)
  {
    if subs != [] {
      assert subs == [subs[0]] + subs[1..];
      InactiveSubscribersCounts(subs[1..]);
    }
  }

  /** Every record is either active or inactive: the two filters split the store. */
  lemma {:induction false} ActiveInactivePartition(subs: seq<Subscriber>)
    ensures |ActiveSubscribers(subs)| + |InactiveSubscribers(subs)| == |subs|
  {
    if subs != [] {
      ActiveInactivePartition(subs[1..]);
    }
  }

  /** Filtering for active records distributes over concatenation. */
  lemma {:induction false} ActiveOfConcat(a: seq<Subscriber>, b: seq<Subscriber>)
    ensures ActiveSubscribers(a + b) == ActiveSubscribers(a) + ActiveSubscribers(b)
  {
    if a == [] {
      assert a + b == b;
    } else {
      assert (a + b)[0] == a[0];
      assert (a + b)[1..] == a[1..] + b;
      ActiveOfConcat(a[1..], b);
    }
  }

  /** `get_subscriber_count`: the number of active records. */
  function SubscriberCount(subs: seq<Subscriber>): (n: nat)
    ensures n <= |subs|
    ensures n == |subs| - |InactiveSubscribers(subs)|
  {
    ActiveInactivePartition(subs);
    |ActiveSubscribers(subs)|
  }

  /** What `get_stats` returns. */
  datatype Stats = Stats(
    activeSubscribers: int,
    totalSubscribers: int,
    inactiveSubscribers: int,
    lastUpdated: string)

  /** `get_stats`: computed from the records on demand; `lastUpdated` is the time of the call. */
  function GetStats(subs: seq<Subscriber>, now: string): (st: Stats)
    ensures st.totalSubscribers == |subs|
    ensures st.activeSubscribers + st.inactiveSubscribers == st.totalSubscribers
    ensures st.activeSubscribers == |ActiveSubscribers(subs)|
    ensures st.inactiveSubscribers == |InactiveSubscribers(subs)|
    ensures st.lastUpdated == now
  {
    var active := SubscriberCount(subs);
    Stats(active, |subs|, |subs| - active, now)
  }

  /** `export_subscribers` (and `get_all_subscribers` when inactive records are included). */
  function ExportSubscribers(subs: seq<Subscriber>, includeInactive: bool): (r: seq<Subscriber>)
    ensures IsSubsequence(r, subs)
    ensures includeInactive ==> r == subs
    ensures !includeInactive ==> (forall x :: x in r ==> x.active) && |r| == SubscriberCount(subs)
    ensures !includeInactive ==> forall i :: 0 <= i < |subs| && subs[i].active ==> subs[i] in r
  {
    if includeInactive then
      SubsequenceOfSelf(subs);
      subs
    else ActiveSubscribers(subs)
  }

  lemma {:induction false} SubsequenceOfSelf<T>(s: seq<T>)
    ensures IsSubsequence(s, s)
  {
    if s != [] {
      SubsequenceOfSelf(s[1..]);
    }
  }

  // ---------------------------------------------------------------------------
  // subscribe
  // ---------------------------------------------------------------------------

  /** Length of an unsubscribe token: the first 32 hex digits of a SHA-256 digest. */
  const TokenLength := 32

  /** An unsubscribe token as generated; its value is opaque to the store. */
  type Token = t: string | |t| == TokenLength witness "00000000000000000000000000000000"

  /** `name.strip() if name else None`: an absent or empty name is stored as none;
      any other name is stripped, so a blank name is stored as the empty string. */
  function StoredName(name: Option<string>): (r: Option<string>)
    ensures r.None? <==> name.None? || name.value == ""
    ensures r.Some? ==> exists i :: SliceBetweenSpaces(name.value, i, r.value) && IsStripped(r.value)
  {
    if name.None? || name.value == "" then None else Some(Strip(name.value))
  }

  /** The outcome of the checks `subscribe` performs before it touches the list. */
  datatype SubscribeDecision =
    | InvalidFormat
    | AlreadySubscribed
    | Accepted(record: Subscriber)

  /** `subscribe`'s checks, in order: normalise, validate, then ask `is_subscribed`;
      on success the record to append. */
  function DecideSubscribe(subs: seq<Subscriber>, email: string, name: Option<string>, now: string, token: Token)
    : (d: SubscribeDecision)
    ensures d == InvalidFormat <==> !ValidateEmail(Normalize(email))
    ensures d.Accepted? <==> ValidateEmail(Normalize(email)) && !IsSubscribed(subs, email)
    ensures d.Accepted? ==> d.record.email == Normalize(email) && d.record.active && d.record.unsubscribedAt.None?
  {
    var e := Normalize(email);
    NormalizeIdempotent(email);
    if !ValidateEmail(e) then InvalidFormat
    else if IsSubscribed(subs, e) then AlreadySubscribed
    else Accepted(Subscriber(e, StoredName(name), now, true, token, None))
  }

  /** The list after `subscribe`: the new record is appended at the end. The append
      happens before the save, so it stays even when saving fails. */
  function ApplySubscribe(subs: seq<Subscriber>, d: SubscribeDecision): (r: seq<Subscriber>)
    ensures |r| == |subs| + (if d.Accepted? then 1 else 0)
    ensures r[..|subs|] == subs
    ensures d.Accepted? ==> r[|subs|] == d.record
  {
    if d.Accepted? then subs + [d.record] else subs
  }

  /** An address that does not match the pattern after normalisation is rejected
      and nothing changes. */
  lemma SubscribeRejectsMalformed(subs: seq<Subscriber>, email: string, name: Option<string>, now: string, token: Token)
    requires !MatchesPattern(Normalize(email))
    ensures DecideSubscribe(subs, email, name, now, token) == InvalidFormat
    ensures ApplySubscribe(subs, DecideSubscribe(subs, email, name, now, token)) == subs
  {
    ValidateNormalized(email);
  }

  /** A well-formed address is refused as a duplicate exactly when the first record
      with it (at `i`) is active; then nothing changes. */
  lemma SubscribeDuplicateCheck(subs: seq<Subscriber>, email: string, name: Option<string>, now: string, token: Token, i: nat)
    requires ValidateEmail(Normalize(email))
    requires IsFirstWithEmail(subs, Normalize(email), i)
    ensures var d := DecideSubscribe(subs, email, name, now, token);
      (d == AlreadySubscribed <==> subs[i].active)
      && (d == AlreadySubscribed ==> ApplySubscribe(subs, d) == subs)
  {
    var e := Normalize(email);
    NormalizeIdempotent(email);
    assert IsFirstWithEmail(subs, Normalize(e), i);
    FirstRecordDecides(subs, e, i);
  }

  lemma FirstRecordDecides(subs: seq<Subscriber>, email: string, i: nat)
    requires IsFirstWithEmail(subs, Normalize(email), i)
    ensures IsSubscribed(subs, email) == subs[i].active
  {
  }

  /** A successful `subscribe` appends exactly one record at the end, and leaves
      every earlier record as it was: the record is active, carries the normalised
      (well-formed) address, the stored name and the 32-character token, and has
      not been unsubscribed. The active count grows by one. */
  lemma SubscribeAppendsOne(subs: seq<Subscriber>, email: string, name: Option<string>, now: string, token: Token)
    requires DecideSubscribe(subs, email, name, now, token).Accepted?
    ensures var d := DecideSubscribe(subs, email, name, now, token);
      var after := ApplySubscribe(subs, d);
      && |after| == |subs| + 1
      && after[..|subs|] == subs
      && after[|subs|] == d.record
      && d.record.active && d.record.unsubscribedAt.None?
      && d.record.email == Normalize(email) && MatchesPattern(d.record.email)
      && d.record.name == StoredName(name)
      && |d.record.unsubscribeToken| == 32
      && d.record.subscribedAt == now
      && SubscriberCount(after) == SubscriberCount(subs) + 1
  {
    var d := DecideSubscribe(subs, email, name, now, token);
    var rec := d.record;
    assert rec == Subscriber(Normalize(email), StoredName(name), now, true, token, None);
    var after := ApplySubscribe(subs, d);
    assert after == subs + [rec];
    ValidateNormalized(email);
    assert MatchesPattern(rec.email);
    CountAppendActive(subs, rec);
  }

  /** Appending an active record raises the active count by one. */
  lemma CountAppendActive(subs: seq<Subscriber>, rec: Subscriber)
    requires rec.active
    ensures SubscriberCount(subs + [rec]) == SubscriberCount(subs) + 1
  {
    ActiveOfConcat(subs, [rec]);
    assert [rec][1..] == [];
  }

  /** A new address, subscribed under any spelling, is then subscribed under every
      spelling that normalises the same way, and subscribing it again is refused. */
  lemma SubscribeThenSubscribed(subs: seq<Subscriber>, email: string, name: Option<string>, now: string, token: Token,
                                again: string, name2: Option<string>, now2: string, token2: Token)
    requires ValidateEmail(Normalize(email))
    requires forall j :: 0 <= j < |subs| ==> subs[j].email != Normalize(email)
    requires Normalize(again) == Normalize(email)
    ensures var d := DecideSubscribe(subs, email, name, now, token);
      var after := ApplySubscribe(subs, d);
      && d.Accepted? && d.record.email == Normalize(email)
      && after == subs + [d.record]
      && IsSubscribed(after, again)
      && DecideSubscribe(after, again, name2, now2, token2) == AlreadySubscribed
  {
    NormalizeIdempotent(email);
    NormalizeIdempotent(again);
    var d := DecideSubscribe(subs, email, name, now, token);
    var after := ApplySubscribe(subs, d);
    assert IsFirstWithEmail(after, Normalize(email), |subs|);
  }

  /** Re-subscribing after an unsubscribe: when the first record with the address is
      inactive, the duplicate check passes and a SECOND record with the same address
      is appended; yet `is_subscribed` still answers false afterwards, because it only
      looks at the first record, so the next `subscribe` appends another one. */
  lemma ResubscribeAppendsDuplicate(subs: seq<Subscriber>, email: string, name: Option<string>, now: string, token: Token, i: nat)
    requires ValidateEmail(Normalize(email))
    requires IsFirstWithEmail(subs, Normalize(email), i) && !subs[i].active
    ensures var d := DecideSubscribe(subs, email, name, now, token);
      var after := ApplySubscribe(subs, d);
      && d.Accepted?
      && after[i].email == after[|after| - 1].email == Normalize(email)
      && i < |after| - 1
      && !IsSubscribed(after, email)
      && DecideSubscribe(after, email, name, now, token).Accepted?
  {
    var d := DecideSubscribe(subs, email, name, now, token);
    SubscribeDuplicateCheck(subs, email, name, now, token, i);
    var after := subs + [d.record];
    assert IsFirstWithEmail(after, Normalize(email), i);
    FirstRecordDecides(after, email, i);
    SubscribeDuplicateCheck(after, email, name, now, token, i);
  }

  // ---------------------------------------------------------------------------
  // unsubscribe
  // ---------------------------------------------------------------------------

  /** Python truthiness of an optional string argument: present and non-empty. */
  predicate Given(s: Option<string>) {
    s.Some? && s.value != ""
  }

  /** The outcome of `unsubscribe`'s lookup. */
  datatype UnsubscribeDecision =
    | MissingIdentifier
    | NotFound
    | Found(index: nat)

  /** `unsubscribe`'s lookup: an e-mail, when given, is normalised and looked up
      and the token is ignored; otherwise the token is looked up exactly. */
  function DecideUnsubscribe(subs: seq<Subscriber>, email: Option<string>, token: Option<string>)
    : (d: UnsubscribeDecision)
    ensures d.Found? ==> d.index < |subs|
    ensures d == MissingIdentifier <==> !Given(email) && !Given(token)
    ensures Given(email) ==>
      && (d.Found? <==> exists j :: 0 <= j < |subs| && subs[j].email == Normalize(email.value))
      && (d.Found? ==> IsFirstWithEmail(subs, Normalize(email.value), d.index))
    ensures !Given(email) && Given(token) ==>
      && (d.Found? <==> exists j :: 0 <= j < |subs| && subs[j].unsubscribeToken == token.value)
      && (d.Found? ==> IsFirstWithToken(subs, token.value, d.index))
  {
    if !Given(email) && !Given(token) then MissingIdentifier
    else
      var found := if Given(email) then FindByEmail(subs, Normalize(email.value))
                   else FindByToken(subs, token.value);
      match found
      case None => NotFound
      case Some(i) => Found(i)
  }

  /** The record after unsubscribing: inactive, stamped with the time; nothing else changes. */
  function Deactivate(s: Subscriber, now: string): (r: Subscriber)
    ensures !r.active && r.unsubscribedAt == Some(now)
    ensures r.email == s.email && r.name == s.name && r.subscribedAt == s.subscribedAt
    ensures r.unsubscribeToken == s.unsubscribeToken
  {
    s.(active := false, unsubscribedAt := Some(now))
  }

  /** The list after `unsubscribe`'s in-place update of the record it found. */
  function ApplyUnsubscribe(subs: seq<Subscriber>, d: UnsubscribeDecision, now: string): (r: seq<Subscriber>)
    requires d.Found? ==> d.index < |subs|
    ensures |r| == |subs|
    ensures forall j :: 0 <= j < |r| ==> r[j] == if d.Found? && j == d.index then Deactivate(subs[j], now) else subs[j]
  {
    if d.Found? then subs[d.index := Deactivate(subs[d.index], now)] else subs
  }

  /** Without an e-mail and without a token nothing is looked up and nothing changes;
      when an e-mail is given the token plays no part. */
  lemma UnsubscribeIdentifiers(subs: seq<Subscriber>, email: Option<string>, token: Option<string>, now: string)
    ensures !Given(email) && !Given(token) ==>
      DecideUnsubscribe(subs, email, token) == MissingIdentifier
      && ApplyUnsubscribe(subs, MissingIdentifier, now) == subs
    ensures Given(email) ==> DecideUnsubscribe(subs, email, token) == DecideUnsubscribe(subs, email, None)
    ensures DecideUnsubscribe(subs, email, token) == NotFound ==> ApplyUnsubscribe(subs, NotFound, now) == subs
  {
  }

  /** `unsubscribe` updates the FIRST matching record only: it becomes inactive and
      carries the time; its other fields, the list length and every other record are
      unchanged. Unsubscribing an inactive record is no different. */
  lemma UnsubscribeDeactivatesFirstMatch(subs: seq<Subscriber>, email: Option<string>, token: Option<string>, now: string)
    requires DecideUnsubscribe(subs, email, token).Found?
    ensures var i := DecideUnsubscribe(subs, email, token).index;
      var after := ApplyUnsubscribe(subs, Found(i), now);
      && (Given(email) ==> IsFirstWithEmail(subs, Normalize(email.value), i))
      && (!Given(email) ==> IsFirstWithToken(subs, token.value, i))
      && |after| == |subs|
      && !after[i].active && after[i].unsubscribedAt == Some(now)
      && after[i].email == subs[i].email && after[i].name == subs[i].name
      && after[i].subscribedAt == subs[i].subscribedAt
      && after[i].unsubscribeToken == subs[i].unsubscribeToken
      && forall j :: 0 <= j < |subs| && j != i ==> after[j] == subs[j]
  {
  }

  /** Unsubscribing by e-mail ends the subscription: `is_subscribed` answers false
      for that address afterwards, while the record stays in the store. */
  lemma UnsubscribeEndsSubscription(subs: seq<Subscriber>, email: string, now: string)
    requires DecideUnsubscribe(subs, Some(email), None).Found?
    ensures var d := DecideUnsubscribe(subs, Some(email), None);
      var after := ApplyUnsubscribe(subs, d, now);
      && !IsSubscribed(after, email)
      && after[d.index].email == Normalize(email)
      && |after| == |subs|
  {
    var d := DecideUnsubscribe(subs, Some(email), None);
    var i, e := d.index, Normalize(email);
    assert IsFirstWithEmail(subs, e, i);
    var after := subs[i := Deactivate(subs[i], now)];
    assert IsFirstWithEmail(after, e, i);
    FirstRecordDecides(after, email, i);
  }

  /** The active count drops by one when the record found was active and stays the
      same when it was already inactive; the total is unchanged. */
  lemma UnsubscribeCount(subs: seq<Subscriber>, email: Option<string>, token: Option<string>, now: string)
    requires DecideUnsubscribe(subs, email, token).Found?
    ensures var d := DecideUnsubscribe(subs, email, token);
      var after := ApplyUnsubscribe(subs, d, now);
      && SubscriberCount(after) == SubscriberCount(subs) - (if subs[d.index].active then 1 else 0)
      && |after| == |subs|
  {
    var i := DecideUnsubscribe(subs, email, token).index;
    CountAfterUpdate(subs, i, Deactivate(subs[i], now));
  }

  /** Replacing one record changes the active count by the change in that record's flag. */
  lemma CountAfterUpdate(subs: seq<Subscriber>, i: nat, x: Subscriber)
    requires i < |subs|
    ensures SubscriberCount(subs[i := x]) + (if subs[i].active then 1 else 0)
         == SubscriberCount(subs) + (if x.active then 1 else 0)
  {
    var pre, post := subs[..i], subs[i + 1..];
    assert subs == (pre + [subs[i]]) + post;
    assert subs[i := x] == (pre + [x]) + post;
    ActiveOfConcat(pre + [subs[i]], post);
    ActiveOfConcat(pre, [subs[i]]);
    ActiveOfConcat(pre + [x], post);
    ActiveOfConcat(pre, [x]);
  }

  /** Unsubscribing the same address twice ends in the state of a single unsubscribe
      at the later time: only the timestamp is stamped again. */
  lemma UnsubscribeTwice(subs: seq<Subscriber>, email: Option<string>, token: Option<string>, now1: string, now2: string)
    requires DecideUnsubscribe(subs, email, token).Found?
    ensures var d := DecideUnsubscribe(subs, email, token);
      var after := ApplyUnsubscribe(subs, d, now1);
      && DecideUnsubscribe(after, email, token) == d
      && ApplyUnsubscribe(after, d, now2) == ApplyUnsubscribe(subs, d, now2)
  {
    var d := DecideUnsubscribe(subs, email, token);
    var i := d.index;
    var after := ApplyUnsubscribe(subs, d, now1);
    assert after == subs[i := Deactivate(subs[i], now1)];
    var again := DecideUnsubscribe(after, email, token);
    if Given(email) {
      var e := Normalize(email.value);
      assert IsFirstWithEmail(after, e, i);
      FirstWithEmailUnique(after, e, i, again.index);
    } else {
      assert IsFirstWithToken(after, token.value, i);
      FirstWithTokenUnique(after, token.value, i, again.index);
    }
    assert Deactivate(after[i], now2) == Deactivate(subs[i], now2);
  }

  lemma FirstWithEmailUnique(subs: seq<Subscriber>, email: string, i: int, j: int)
    requires IsFirstWithEmail(subs, email, i) && IsFirstWithEmail(subs, email, j)
    ensures i == j
  {
  }

  lemma FirstWithTokenUnique(subs: seq<Subscriber>, token: string, i: int, j: int)
    requires IsFirstWithToken(subs, token, i) && IsFirstWithToken(subs, token, j)
    ensures i == j
  {
  }

  /** Unsubscribing by a record's token and by its address reach the same record
      when it is the first record with the address and the first with the token. */
  lemma UnsubscribeByTokenOrEmail(subs: seq<Subscriber>, i: nat, email: string)
    requires email != "" && IsFirstWithEmail(subs, Normalize(email), i)
    requires subs[i].unsubscribeToken != "" && IsFirstWithToken(subs, subs[i].unsubscribeToken, i)
    ensures DecideUnsubscribe(subs, None, Some(subs[i].unsubscribeToken)) == Found(i)
    ensures DecideUnsubscribe(subs, Some(email), None) == Found(i)
  {
    var byEmail := FindByEmail(subs, Normalize(email));
    FirstWithEmailUnique(subs, Normalize(email), i, byEmail.value);
    var byToken := FindByToken(subs, subs[i].unsubscribeToken);
    FirstWithTokenUnique(subs, subs[i].unsubscribeToken, i, byToken.value);
  }

  // ---------------------------------------------------------------------------
  // Storage file
  // ---------------------------------------------------------------------------

  /** The storage file as the loader sees it. `Json` carries the value of its
      "subscribers" key, which may be missing. */
  datatype StoredFile =
    | Missing
    | Malformed
    | Json(subscribers: Option<seq<Subscriber>>, lastUpdated: string, totalCount: int)

  /** `_load_subscribers`: the stored list, or an empty store when the file is
      missing, does not parse, or has no "subscribers" key. */
  function LoadSubscribers(f: StoredFile): (r: seq<Subscriber>)
    ensures f.Json? && f.subscribers.Some? ==> r == f.subscribers.value
    ensures !f.Json? || f.subscribers.None? ==> r == []
  {
    match f
    case Json(Some(subs), _, _) => subs
    case _ => []
  }

  /** The document `_save_subscribers` writes. Loading it gives the same records back,
      so the active/inactive partition and every token survive a save and reload. */
  function SavedFile(subs: seq<Subscriber>, now: string): (f: StoredFile)
    ensures LoadSubscribers(f) == subs
    ensures f.Json? && f.totalCount == |subs| && f.lastUpdated == now
  {
    Json(Some(subs), now, |subs|)
  }
}
