/** Login tokens in Redis: one key per token, and per user the set of its tokens, each
    with its own deadline. Calls are taken one at a time against a working Redis. */
module TokenManagers {
  import opened Basics
  import opened Decimal
  import opened RedisStore

  const INT_MIN: int := -0x8000_0000

  function TokenKey(token: string): string { "token:" + token }

  function SetKey(user: int): string { "user_tokens:" + IntToString(user) }

  lemma KeysApart(token: string, user: int, other: int, token': string)
    ensures TokenKey(token) != SetKey(user)
    ensures SetKey(user) == SetKey(other) ==> user == other
    ensures TokenKey(token) == TokenKey(token') ==> token == token'
  {
    assert TokenKey(token)[0] == 't' && SetKey(user)[0] == 'u';
    assert SetKey(user)[12..] == IntToString(user) && SetKey(other)[12..] == IntToString(other);
    if SetKey(user) == SetKey(other) {
      IntToStringInjective(user, other);
    }
    assert TokenKey(token)[6..] == token && TokenKey(token')[6..] == token';
  }

  // ------------------------------------------------------------- the calls

  /** createToken, with the token it has drawn. */
  function Create<J>(s: Store<J>, user: int, seconds: int, token: string, now: int): Store<J>
    requires seconds > 0
  {
    var withToken := SetEx(s, TokenKey(token), seconds, Text(IntToString(user)), now);
    Expire(SAdd(withToken, SetKey(user), token, now), SetKey(user), seconds, now)
  }

  /** The user a token stands for at a time, if any. */
  function Lookup<J>(s: Store<J>, token: string, now: int): Option<int> {
    var value := Get(s, TokenKey(token), now);
    if value.Some? && value.value.Text? then Some(Strtol(value.value.text, 0).0) else None
  }

  function Remove<J>(s: Store<J>, token: string, now: int): Store<J> {
    var user := Lookup(s, token, now);
    if user.None? then s else Del(SRem(s, SetKey(user.value), token, now), TokenKey(token))
  }

  function RemoveAll<J>(s: Store<J>, user: int, now: int): Store<J> {
    var tokens := SMembers(s, SetKey(user), now);
    (s - (set t | t in tokens :: TokenKey(t))) - {SetKey(user)}
  }

  // --------------------------------------------------------------- history

  datatype Call =
    | Created(at: int, user: int, seconds: int, token: string)
    | Removed(at: int, token: string)
    | RemovedAll(at: int, user: int)

  /** The store after a history of calls on an empty Redis. */
  ghost function Replay<J>(h: seq<Call>): Store<J>
    requires AllPositive(h)
  {
    if h == [] then map[] else Applied(Replay(h[..|h| - 1]), h[|h| - 1])
  }

  ghost predicate AllPositive(h: seq<Call>) { forall i :: 0 <= i < |h| ==> Positive(h[i]) }

  predicate Positive(c: Call) { c.Created? ==> c.seconds > 0 }

  function Applied<J>(s: Store<J>, c: Call): Store<J>
    requires Positive(c)
  {
    match c
    case Created(at, user, seconds, token) => Create(s, user, seconds, token, at)
    case Removed(at, token) => Remove(s, token, at)
    case RemovedAll(at, user) => RemoveAll(s, user, at)
  }

  /** What a token was created as, read off the history alone. */
  ghost predicate Creates(h: seq<Call>, i: int, token: string, user: int) {
    0 <= i < |h| && h[i].Created? && h[i].token == token && h[i].user == user
  }

  function End(c: Call): int
    requires c.Created?
  {
    c.at + c.seconds
  }

  predicate CreatesFor(c: Call, user: int) { c.Created? && c.user == user }

  /** Since the token of call i was created, the user's index has run out before `at`: one of
      the user's tokens ended with no newer one created in time. */
  ghost predicate IndexLapsed(h: seq<Call>, i: nat, user: int, at: int) {
    exists k :: && i <= k < |h| && CreatesFor(h[k], user) && End(h[k]) <= at
                && forall n :: k < n < |h| && CreatesFor(h[n], user) ==> End(h[k]) <= h[n].at
  }

  /** Call j takes back the token of call i: it removes it, or all of the user's tokens while
      the index still has it. */
  ghost predicate Revokes(h: seq<Call>, i: nat, j: nat, token: string, user: int)
    requires j < |h|
  {
    match h[j]
    case Created(_, _, _, _) => false
    case Removed(_, t) => t == token
    case RemovedAll(at, u) => u == user && !IndexLapsed(h[..j], i, user, at)
  }

  ghost predicate RevokedSince(h: seq<Call>, i: nat, token: string, user: int) {
    exists j :: i < j < |h| && Revokes(h, i, j, token, user)
  }

  /** Created for the user less than its lifetime ago, and not taken back since. */
  ghost predicate Granted(h: seq<Call>, token: string, user: int, now: int) {
    exists i :: Creates(h, i, token, user) && now < End(h[i]) && !RevokedSince(h, i, token, user)
  }

  /** The same, when removing all tokens of a user never misses one. */
  ghost predicate PlainlyGranted(h: seq<Call>, token: string, user: int, now: int) {
    exists i :: && Creates(h, i, token, user) && now < End(h[i])
                && forall j :: i < j < |h| ==> !RevokesPlainly(h[j], token, user)
  }

  predicate RevokesPlainly(c: Call, token: string, user: int) {
    (c.Removed? && c.token == token) || (c.RemovedAll? && c.user == user)
  }

  /** Histories as the server makes them: the clock does not go back, every token is drawn
      fresh, users are ints, lifetimes are positive. */
  ghost predicate Orderly(h: seq<Call>) {
    && AllPositive(h)
    && (forall i, j :: 0 <= i < j < |h| ==> h[i].at <= h[j].at)
    && (forall i :: 0 <= i < |h| && h[i].Created? ==> INT_MIN <= h[i].user <= INT_MAX)
    && (forall i, j :: 0 <= i < j < |h| && h[i].Created? && h[j].Created? ==> h[i].token != h[j].token)
  }

  /** No token of a user ends before an earlier one of the same user. */
  ghost predicate NeverShortens(h: seq<Call>) {
    forall i, j :: 0 <= i < j < |h| && h[i].Created? && h[j].Created? && h[i].user == h[j].user ==>
      End(h[i]) <= End(h[j])
  }

  /** One lifetime for all tokens never shortens. */
  lemma OneLifetimeNeverShortens(h: seq<Call>, seconds: int)
    requires Orderly(h) && forall i :: 0 <= i < |h| && h[i].Created? ==> h[i].seconds == seconds
    ensures NeverShortens(h)
  {
  }

  // ------------------------------------------------------------- the index

  /** A token that stands: its user, its deadline, and whether the user's index has had it
      without a break since. */
  datatype Standing = Standing(user: int, deadline: int, listed: bool)

  /** What stands, and when the last token of each user ends. */
  datatype Book = Book(tokens: map<string, Standing>, ends: map<int, int>)

  predicate Covers(b: Book, user: int, at: int) { user in b.ends && at < b.ends[user] }

  predicate InIndex(b: Book, st: Standing, at: int) { st.listed && Covers(b, st.user, at) }

  ghost function BookAfter(h: seq<Call>): Book {
    if h == [] then Book(map[], map[]) else BookNext(BookAfter(h[..|h| - 1]), h[|h| - 1])
  }

  function Relisted(b: Book, user: int, at: int): map<string, Standing> {
    map t | t in b.tokens ::
      if b.tokens[t].user == user then b.tokens[t].(listed := InIndex(b, b.tokens[t], at)) else b.tokens[t]
  }

  function Swept(b: Book, user: int, at: int): map<string, Standing> {
    map t | t in b.tokens && !(b.tokens[t].user == user && InIndex(b, b.tokens[t], at)) :: b.tokens[t]
  }

  function BookNext(b: Book, c: Call): Book {
    match c
    case Created(at, user, seconds, token) =>
      Book(Relisted(b, user, at)[token := Standing(user, at + seconds, true)], b.ends[user := at + seconds])
    case Removed(at, token) => b.(tokens := b.tokens - {token})
    case RemovedAll(at, user) => b.(tokens := Swept(b, user, at))
  }

  /** The user each token was ever made for. */
  ghost function MadeFor(h: seq<Call>): map<string, int> {
    if h == [] then map[] else MadeNext(MadeFor(h[..|h| - 1]), h[|h| - 1])
  }

  function MadeNext(made: map<string, int>, c: Call): map<string, int> {
    if c.Created? then made[c.token := c.user] else made
  }

  /** The stored entry of a standing token. */
  ghost predicate Stored<J>(s: Store<J>, t: string, st: Standing) {
    TokenKey(t) in s && s[TokenKey(t)] == Entry(Text(IntToString(st.user)), Some(st.deadline))
  }

  /** A standing token is in its user's set exactly when the book says so. */
  ghost predicate Listed<J>(s: Store<J>, b: Book, t: string, now: int)
    requires t in b.tokens
  {
    t in SMembers(s, SetKey(b.tokens[t].user), now) <==> InIndex(b, b.tokens[t], now)
  }

  /** The whole relation between the store and the book, at a time. */
  ghost predicate Indexed<J>(s: Store<J>, b: Book, made: map<string, int>, now: int) {
    && StandingIsListed(s, b, now) && LiveIsStanding(s, b.tokens, now)
    && MadeForOwner(b.tokens, made) && SetsOwned(s, b.ends, made)
  }

  ghost predicate StandingIsListed<J>(s: Store<J>, b: Book, now: int) {
    forall t :: t in b.tokens && now < b.tokens[t].deadline ==> Stored(s, t, b.tokens[t]) && Listed(s, b, t, now)
  }

  ghost predicate LiveIsStanding<J>(s: Store<J>, st: map<string, Standing>, now: int) {
    forall t :: Live(s, TokenKey(t), now) ==> t in st && Stored(s, t, st[t])
  }

  ghost predicate MadeForOwner(st: map<string, Standing>, made: map<string, int>) {
    forall t :: t in st ==> t in made && made[t] == st[t].user && INT_MIN <= st[t].user <= INT_MAX
  }

  /** A user's stored set holds only tokens made for the user, and ends with the last of them. */
  ghost predicate SetsOwned<J>(s: Store<J>, ends: map<int, int>, made: map<string, int>) {
    forall u: int :: SetKey(u) in s ==> SetOwned(s[SetKey(u)], u, ends, made)
  }

  ghost predicate SetOwned<J>(e: Entry<J>, user: int, ends: map<int, int>, made: map<string, int>) {
    && e.value.Members? && user in ends && e.deadline == Some(ends[user])
    && forall m :: m in e.value.members ==> m in made && made[m] == user
  }

  ghost predicate IsTokenKey(key: string) { key != "" && key[0] == 't' }

  ghost function TokenOf(key: string): string { if |key| >= 6 then key[6..] else "" }

  ghost function UserOf(key: string): int {
    if exists u: int :: SetKey(u) == key then var u: int :| SetKey(u) == key; u else 0
  }

  /** Keys are of one kind or the other and tell what they were made from. */
  lemma AllKeysApart()
    ensures forall t :: IsTokenKey(TokenKey(t)) && TokenOf(TokenKey(t)) == t
    ensures forall u :: !IsTokenKey(SetKey(u)) && UserOf(SetKey(u)) == u
  {
    forall t
      ensures IsTokenKey(TokenKey(t)) && TokenOf(TokenKey(t)) == t
    {
      assert TokenKey(t)[6..] == t;
    }
    forall u
      ensures !IsTokenKey(SetKey(u)) && UserOf(SetKey(u)) == u
    {
      assert SetKey(u)[0] == 'u';
      KeysApart("", u, UserOf(SetKey(u)), "");
    }
  }

  lemma UserReadBack(user: int)
    requires INT_MIN <= user <= INT_MAX
    ensures Strtol(IntToString(user), 0).0 == user
  {
    StrtolOfInt(user);
  }

  /** Under the relation, a lookup finds exactly the standing tokens that have not ended. */
  lemma LookupIsStanding<J>(s: Store<J>, b: Book, made: map<string, int>, t: string, now: int)
    requires Indexed(s, b, made, now)
    ensures Lookup(s, t, now)
            == if t in b.tokens && now < b.tokens[t].deadline then Some(b.tokens[t].user) else None
  {
    hide TokenKey, SetKey, Strtol, IntToString, SMembers;
    if t in b.tokens && now < b.tokens[t].deadline {
      assert Stored(s, t, b.tokens[t]);
      UserReadBack(b.tokens[t].user);
    } else {
      assert !Live(s, TokenKey(t), now);
    }
  }

  lemma TimePasses<J>(s: Store<J>, b: Book, made: map<string, int>, now: int, later: int)
    requires Indexed(s, b, made, now) && now <= later
    ensures Indexed(s, b, made, later)
  {
    hide TokenKey, SetKey, MadeForOwner, IntToString;
    forall t | Live(s, TokenKey(t), later)
      ensures t in b.tokens && Stored(s, t, b.tokens[t])
    {
      assert Live(s, TokenKey(t), now);
    }
    forall t | t in b.tokens && later < b.tokens[t].deadline
      ensures Stored(s, t, b.tokens[t]) && Listed(s, b, t, later)
    {
      assert Listed(s, b, t, now);
      SetsOwnedAt(s, b.ends, made, b.tokens[t].user);
    }
  }

  ghost predicate SameAt<J>(s: Store<J>, n: Store<J>, key: string) {
    (key in n <==> key in s) && (key in s ==> n[key] == s[key])
  }

  /** A set that did not change lists what it listed. */
  lemma StaysListed<J>(s: Store<J>, n: Store<J>, user: int, now: int)
    requires SameAt(s, n, SetKey(user))
    ensures SMembers(n, SetKey(user), now) == SMembers(s, SetKey(user), now)
  {
  }

  lemma StaysLive<J>(s: Store<J>, n: Store<J>, t: string, now: int)
    requires SameAt(s, n, TokenKey(t))
    ensures Live(n, TokenKey(t), now) <==> Live(s, TokenKey(t), now)
    ensures forall st :: Stored(n, t, st) <==> Stored(s, t, st)
  {
  }

  /** Which keys createToken touches, and what it leaves there. */
  ghost predicate CreateEffect<J>(s: Store<J>, n: Store<J>, user: int, seconds: int, token: string, now: int) {
    && TokenKey(token) in n && n[TokenKey(token)] == Entry(Text(IntToString(user)), Some(now + seconds))
    && SetKey(user) in n
    && n[SetKey(user)] == Entry(Members(SMembers(s, SetKey(user), now) + {token}), Some(now + seconds))
    && (forall key :: key != TokenKey(token) && key != SetKey(user) ==> SameAt(s, n, key))
  }

  lemma CreateHasEffect<J>(s: Store<J>, user: int, seconds: int, token: string, now: int)
    requires seconds > 0 && (SetKey(user) in s ==> s[SetKey(user)].value.Members?)
    ensures CreateEffect(s, Create(s, user, seconds, token, now), user, seconds, token, now)
  {
    KeysApart(token, user, user, token);
    hide TokenKey, SetKey, IntToString;
    var n := Create(s, user, seconds, token, now);
    var listed := SMembers(s, SetKey(user), now) + {token};
    assert n[SetKey(user)].value == Members(listed);
  }

  lemma SetsOwnedAt<J>(s: Store<J>, ends: map<int, int>, made: map<string, int>, user: int)
    requires SetsOwned(s, ends, made)
    ensures SetKey(user) in s ==> SetOwned(s[SetKey(user)], user, ends, made)
  {
  }

  lemma CreateListed<J>(s: Store<J>, n: Store<J>, b: Book, user: int, seconds: int, token: string, now: int)
    requires StandingIsListed(s, b, now) && CreateEffect(s, n, user, seconds, token, now) && seconds > 0
    ensures StandingIsListed(n, BookNext(b, Created(now, user, seconds, token)), now)
  {
    AllKeysApart();
    hide IsTokenKey, TokenOf, UserOf;
    hide TokenKey, SetKey, IntToString;
    var b' := BookNext(b, Created(now, user, seconds, token));
    forall t | t in b'.tokens && now < b'.tokens[t].deadline
      ensures Stored(n, t, b'.tokens[t]) && Listed(n, b', t, now)
    {
      if t != token {
        assert Stored(s, t, b.tokens[t]) && Listed(s, b, t, now);
        assert SameAt(s, n, TokenKey(t));
        if b.tokens[t].user != user {
          StaysListed(s, n, b.tokens[t].user, now);
        }
      }
    }
  }

  lemma CreateLive<J>(s: Store<J>, n: Store<J>, b: Book, user: int, seconds: int, token: string, now: int)
    requires LiveIsStanding(s, b.tokens, now) && CreateEffect(s, n, user, seconds, token, now)
    ensures LiveIsStanding(n, BookNext(b, Created(now, user, seconds, token)).tokens, now)
  {
    AllKeysApart();
    hide IsTokenKey, TokenOf, UserOf;
    hide TokenKey, SetKey, IntToString, SMembers, InIndex;
    var b' := BookNext(b, Created(now, user, seconds, token));
    forall t | Live(n, TokenKey(t), now)
      ensures t in b'.tokens && Stored(n, t, b'.tokens[t])
    {
      if t != token {
        StaysLive(s, n, t, now);
        assert Stored(s, t, b.tokens[t]);
      }
    }
  }

  lemma CreateOwned<J>(s: Store<J>, n: Store<J>, ends: map<int, int>, made: map<string, int>,
                       user: int, seconds: int, token: string, now: int)
    requires SetsOwned(s, ends, made) && CreateEffect(s, n, user, seconds, token, now) && token !in made
    ensures SetsOwned(n, ends[user := now + seconds], made[token := user])
  {
    AllKeysApart();
    hide IsTokenKey, TokenOf, UserOf;
    hide TokenKey, SetKey, IntToString;
    forall u: int | SetKey(u) in n
      ensures SetOwned(n[SetKey(u)], u, ends[user := now + seconds], made[token := user])
    {
      SetsOwnedAt(s, ends, made, u);
      if u != user {
        assert SameAt(s, n, SetKey(u));
      }
    }
  }

  lemma CreateMade(b: Book, made: map<string, int>, user: int, seconds: int, token: string, now: int)
    requires MadeForOwner(b.tokens, made) && token !in made && INT_MIN <= user <= INT_MAX
    ensures MadeForOwner(BookNext(b, Created(now, user, seconds, token)).tokens, made[token := user])
  {
    hide InIndex;
  }

  lemma CreateKeepsIndex<J>(s: Store<J>, b: Book, made: map<string, int>,
                            user: int, seconds: int, token: string, now: int)
    requires Indexed(s, b, made, now) && seconds > 0 && token !in made && INT_MIN <= user <= INT_MAX
    ensures Indexed(Create(s, user, seconds, token, now), BookNext(b, Created(now, user, seconds, token)),
                    made[token := user], now)
  {
    SetsOwnedAt(s, b.ends, made, user);
    hide Create, CreateEffect, StandingIsListed, LiveIsStanding, SetsOwned, MadeForOwner, Relisted;
    var n := Create(s, user, seconds, token, now);
    CreateHasEffect(s, user, seconds, token, now);
    CreateListed(s, n, b, user, seconds, token, now);
    CreateLive(s, n, b, user, seconds, token, now);
    CreateOwned(s, n, b.ends, made, user, seconds, token, now);
    CreateMade(b, made, user, seconds, token, now);
  }

  /** What removing takes out: some tokens of one user, and perhaps the user's set. */
  ghost predicate RemovalEffect<J>(s: Store<J>, n: Store<J>, user: int, gone: set<string>, now: int) {
    && (forall t :: t in gone ==> TokenKey(t) !in n)
    && (forall t :: t !in gone ==> SameAt(s, n, TokenKey(t)))
    && (forall u: int :: u != user ==> SameAt(s, n, SetKey(u)))
    && (SetKey(user) in n ==> SetKey(user) in s && SetShrinks(s[SetKey(user)], n[SetKey(user)]))
    && (forall m :: m in SMembers(s, SetKey(user), now) && m !in gone ==>
          SetKey(user) in n && n[SetKey(user)].value.Members? && m in n[SetKey(user)].value.members)
  }

  ghost predicate SetShrinks<J>(a: Entry<J>, b: Entry<J>) {
    a.deadline == b.deadline && a.value.Members? && b.value.Members? && b.value.members <= a.value.members
  }

  lemma SRemEffect<J>(s: Store<J>, key: string, member: string, now: int)
    requires key in s ==> s[key].value.Members?
    ensures var n := SRem(s, key, member, now);
            && (forall other :: other != key ==> SameAt(s, n, other))
            && (key in n ==> key in s && SetShrinks(s[key], n[key]))
            && (forall m :: m in SMembers(s, key, now) && m != member ==>
                  key in n && n[key].value.Members? && m in n[key].value.members)
  {
    forall m | m in SMembers(s, key, now) && m != member
      ensures key in SRem(s, key, member, now) && m in SRem(s, key, member, now)[key].value.members
    {
      assert m in s[key].value.members - {member};
    }
  }

  lemma RemoveHasEffect<J>(s: Store<J>, token: string, user: int, now: int)
    requires (SetKey(user) in s ==> s[SetKey(user)].value.Members?) && Lookup(s, token, now) == Some(user)
    ensures RemovalEffect(s, Remove(s, token, now), user, {token}, now)
  {
    AllKeysApart();
    hide IsTokenKey, TokenOf, UserOf;
    SRemEffect(s, SetKey(user), token, now);
    hide TokenKey, SetKey, Lookup, SRem, SMembers, SetShrinks;
    var n := Remove(s, token, now);
    forall t | t != token
      ensures SameAt(s, n, TokenKey(t))
    {
      assert SameAt(s, SRem(s, SetKey(user), token, now), TokenKey(t));
    }
    forall u: int | u != user
      ensures SameAt(s, n, SetKey(u))
    {
      assert SameAt(s, SRem(s, SetKey(user), token, now), SetKey(u));
    }
  }

  lemma RemoveAllHasEffect<J>(s: Store<J>, user: int, now: int)
    ensures RemovalEffect(s, RemoveAll(s, user, now), user, SMembers(s, SetKey(user), now), now)
  {
    AllKeysApart();
    hide IsTokenKey, TokenOf, UserOf;
    hide TokenKey, SetKey, SMembers;
  }

  /** The user's set lists of the other tokens what it listed. */
  lemma RemovalMembers<J>(s: Store<J>, n: Store<J>, user: int, gone: set<string>, now: int, t: string)
    requires RemovalEffect(s, n, user, gone, now) && t !in gone
    ensures t in SMembers(n, SetKey(user), now) <==> t in SMembers(s, SetKey(user), now)
  {
    hide TokenKey, SetKey;
  }

  /** Removal keeps the relation, for the tokens left standing, as long as everything that
      leaves the book is ended or gone. */
  lemma RemovalKeepsIndex<J>(s: Store<J>, n: Store<J>, b: Book, left: map<string, Standing>,
                             made: map<string, int>, user: int, gone: set<string>, now: int)
    requires Indexed(s, b, made, now) && RemovalEffect(s, n, user, gone, now)
    requires forall t :: t in left ==> t in b.tokens && left[t] == b.tokens[t]
    requires forall t :: t in gone && t in left ==> left[t].deadline <= now
    requires forall t :: t in b.tokens && t !in left && now < b.tokens[t].deadline ==> t in gone
    ensures Indexed(n, b.(tokens := left), made, now)
  {
    RemovalListed(s, n, b, left, user, gone, now);
    RemovalLive(s, n, b.tokens, left, user, gone, now);
    RemovalOwned(s, n, b.ends, made, user, gone, now);
    hide RemovalEffect, StandingIsListed, LiveIsStanding, SetsOwned;
  }

  lemma RemovalListed<J>(s: Store<J>, n: Store<J>, b: Book, left: map<string, Standing>,
                         user: int, gone: set<string>, now: int)
    requires StandingIsListed(s, b, now) && RemovalEffect(s, n, user, gone, now)
    requires forall t :: t in left ==> t in b.tokens && left[t] == b.tokens[t]
    requires forall t :: t in gone && t in left ==> left[t].deadline <= now
    ensures StandingIsListed(n, b.(tokens := left), now)
  {
    hide TokenKey, SetKey, IntToString, SMembers, SetShrinks;
    forall t | t in left && now < left[t].deadline
      ensures Stored(n, t, left[t]) && Listed(n, b.(tokens := left), t, now)
    {
      assert Stored(s, t, b.tokens[t]) && Listed(s, b, t, now);
      assert t !in gone && SameAt(s, n, TokenKey(t));
      if left[t].user == user {
        RemovalMembers(s, n, user, gone, now, t);
      } else {
        StaysListed(s, n, left[t].user, now);
      }
    }
  }

  lemma RemovalLive<J>(s: Store<J>, n: Store<J>, st: map<string, Standing>, left: map<string, Standing>,
                       user: int, gone: set<string>, now: int)
    requires LiveIsStanding(s, st, now) && RemovalEffect(s, n, user, gone, now)
    requires forall t :: t in left ==> t in st && left[t] == st[t]
    requires forall t :: t in st && t !in left && now < st[t].deadline ==> t in gone
    ensures LiveIsStanding(n, left, now)
  {
    hide TokenKey, SetKey, IntToString, SMembers, SetShrinks;
    forall t | Live(n, TokenKey(t), now)
      ensures t in left && Stored(n, t, left[t])
    {
      assert t !in gone;
      StaysLive(s, n, t, now);
      assert Stored(s, t, st[t]);
    }
  }

  lemma RemovalOwned<J>(s: Store<J>, n: Store<J>, ends: map<int, int>, made: map<string, int>,
                        user: int, gone: set<string>, now: int)
    requires SetsOwned(s, ends, made) && RemovalEffect(s, n, user, gone, now)
    ensures SetsOwned(n, ends, made)
  {
    hide TokenKey, SetKey, SMembers;
    forall u: int | SetKey(u) in n
      ensures SetOwned(n[SetKey(u)], u, ends, made)
    {
      SetsOwnedAt(s, ends, made, u);
      if u != user {
        assert SameAt(s, n, SetKey(u));
      }
    }
  }

  lemma RemoveKeepsIndex<J>(s: Store<J>, b: Book, made: map<string, int>, token: string, now: int)
    requires Indexed(s, b, made, now)
    ensures Indexed(Remove(s, token, now), b.(tokens := b.tokens - {token}), made, now)
  {
    LookupIsStanding(s, b, made, token, now);
    hide RemovalEffect, Lookup, TokenKey, SetKey, SMembers;
    if token in b.tokens && now < b.tokens[token].deadline {
      var user := b.tokens[token].user;
      SetsOwnedAt(s, b.ends, made, user);
      RemoveHasEffect(s, token, user, now);
      RemovalKeepsIndex(s, Remove(s, token, now), b, b.tokens - {token}, made, user, {token}, now);
    }
  }

  /** The set lists exactly the tokens that must go. */
  lemma RemoveAllKeepsIndex<J>(s: Store<J>, b: Book, made: map<string, int>, user: int, now: int)
    requires Indexed(s, b, made, now)
    ensures Indexed(RemoveAll(s, user, now), b.(tokens := Swept(b, user, now)), made, now)
  {
    var gone := SMembers(s, SetKey(user), now);
    RemoveAllHasEffect(s, user, now);
    SetsOwnedAt(s, b.ends, made, user);
    hide RemovalEffect, TokenKey, SetKey, RemoveAll;
    forall t | t in b.tokens && now < b.tokens[t].deadline
      ensures t in gone <==> b.tokens[t].user == user && InIndex(b, b.tokens[t], now)
    {
      assert Listed(s, b, t, now);
    }
    hide SMembers, InIndex;
    RemovalKeepsIndex(s, RemoveAll(s, user, now), b, Swept(b, user, now), made, user, gone, now);
  }

  // ----------------------------------------------------------- main results

  lemma OrderlyPrefix(h: seq<Call>)
    requires Orderly(h) && h != []
    ensures Orderly(h[..|h| - 1])
  {
  }

  lemma {:induction false} MadeForIs(h: seq<Call>, token: string)
    ensures token in MadeFor(h) ==> exists i :: Creates(h, i, token, MadeFor(h)[token])
  {
    if h == [] {
    } else {
      var p := h[..|h| - 1];
      MadeForIs(p, token);
      if token in MadeFor(h) {
        if h[|h| - 1].Created? && h[|h| - 1].token == token {
          assert Creates(h, |h| - 1, token, MadeFor(h)[token]);
        } else {
          var i :| Creates(p, i, token, MadeFor(p)[token]);
          assert Creates(h, i, token, MadeFor(h)[token]);
        }
      }
    }
  }

  /** One more call for another user, or none that creates, does not touch a user's lapses. */
  lemma LapseStays(h: seq<Call>, i: nat, user: int, at: int)
    requires h != [] && i < |h| - 1 && !CreatesFor(h[|h| - 1], user)
    ensures IndexLapsed(h, i, user, at) <==> IndexLapsed(h[..|h| - 1], i, user, at)
  {
    var p := h[..|h| - 1];
    if k :| && i <= k < |h| && CreatesFor(h[k], user) && End(h[k]) <= at
            && forall n :: k < n < |h| && CreatesFor(h[n], user) ==> End(h[k]) <= h[n].at {
      assert p[k] == h[k];
      assert forall n :: k < n < |p| ==> p[n] == h[n];
    }
    if k :| && i <= k < |p| && CreatesFor(p[k], user) && End(p[k]) <= at
            && forall n :: k < n < |p| && CreatesFor(p[n], user) ==> End(p[k]) <= p[n].at {
      assert CreatesFor(h[k], user);
      forall n | k < n < |h| && CreatesFor(h[n], user)
        ensures End(h[k]) <= h[n].at
      {
        assert h[n] == p[n];
      }
    }
  }

  /** One more token of the user: either the index had lapsed by then, or it now ends with it. */
  lemma LapseGoesOn(h: seq<Call>, i: nat, user: int, at: int)
    requires h != [] && i < |h| - 1 && CreatesFor(h[|h| - 1], user) && h[|h| - 1].at <= at
    ensures IndexLapsed(h, i, user, at)
            <==> IndexLapsed(h[..|h| - 1], i, user, h[|h| - 1].at) || End(h[|h| - 1]) <= at
  {
    var p := h[..|h| - 1];
    var last := h[|h| - 1];
    if k :| && i <= k < |h| && CreatesFor(h[k], user) && End(h[k]) <= at
            && forall n :: k < n < |h| && CreatesFor(h[n], user) ==> End(h[k]) <= h[n].at {
      if k < |h| - 1 {
        assert p[k] == h[k];
        assert forall n :: k < n < |p| ==> p[n] == h[n];
      }
    }
    if End(last) <= at {
      assert CreatesFor(h[|h| - 1], user);
    }
    if k :| && i <= k < |p| && CreatesFor(p[k], user) && End(p[k]) <= last.at
            && forall n :: k < n < |p| && CreatesFor(p[n], user) ==> End(p[k]) <= p[n].at {
      assert CreatesFor(h[k], user);
      forall n | k < n < |h| && CreatesFor(h[n], user)
        ensures End(h[k]) <= h[n].at
      {
        if n < |h| - 1 {
          assert h[n] == p[n];
        }
      }
    }
  }

  lemma LapseBegins(h: seq<Call>, user: int, at: int)
    requires h != [] && CreatesFor(h[|h| - 1], user)
    ensures IndexLapsed(h, |h| - 1, user, at) <==> End(h[|h| - 1]) <= at
  {
  }

  /** Revocation up to the last call, and by it. */
  lemma RevokedSinceSnoc(h: seq<Call>, i: nat, token: string, user: int)
    requires h != [] && i < |h| - 1
    ensures RevokedSince(h, i, token, user)
            <==> RevokedSince(h[..|h| - 1], i, token, user) || Revokes(h, i, |h| - 1, token, user)
  {
    var p := h[..|h| - 1];
    forall j | i < j < |h| - 1
      ensures Revokes(h, i, j, token, user) <==> Revokes(p, i, j, token, user)
    {
      assert p[j] == h[j] && p[..j] == h[..j];
    }
  }

  /** The book has a token as it was created, as long as it has not been taken back, and knows
      whether the index has lapsed since. */
  ghost predicate BookHas(h: seq<Call>, i: int, token: string, user: int, at: int)
    requires Creates(h, i, token, user)
  {
    var b := BookAfter(h);
    && (token in b.tokens <==> !RevokedSince(h, i, token, user))
    && (token in b.tokens ==>
          && b.tokens[token].user == user && b.tokens[token].deadline == End(h[i])
          && (InIndex(b, b.tokens[token], at) <==> !IndexLapsed(h, i, user, at)))
  }

  lemma {:induction false} BookFollows(h: seq<Call>, i: int, token: string, user: int, at: int)
    requires Orderly(h) && Creates(h, i, token, user) && h[|h| - 1].at <= at
    ensures BookHas(h, i, token, user, at)
    decreases |h|
  {
    if i == |h| - 1 {
      LapseBegins(h, user, at);
      assert !RevokedSince(h, i, token, user);
    } else {
      var p, last := h[..|h| - 1], h[|h| - 1];
      OrderlyPrefix(h);
      assert Creates(p, i, token, user);
      assert p[|p| - 1].at <= last.at;
      BookFollows(p, i, token, user, last.at);
      BookFollows(p, i, token, user, at);
      assert last.Created? ==> last.token != token;
      BookGoesOn(h, i, token, user, at);
    }
  }

  lemma BookGoesOn(h: seq<Call>, i: nat, token: string, user: int, at: int)
    requires h != [] && i < |h| - 1 && h[|h| - 1].at <= at && Creates(h, i, token, user)
    requires Creates(h[..|h| - 1], i, token, user)
    requires BookHas(h[..|h| - 1], i, token, user, h[|h| - 1].at) && BookHas(h[..|h| - 1], i, token, user, at)
    requires h[|h| - 1].Created? ==> h[|h| - 1].token != token
    ensures BookHas(h, i, token, user, at)
  {
    var p, last := h[..|h| - 1], h[|h| - 1];
    var b := BookAfter(p);
    assert BookAfter(h) == BookNext(b, last);
    RevokedSinceSnoc(h, i, token, user);
    if CreatesFor(last, user) {
      LapseGoesOn(h, i, user, at);
    } else {
      LapseStays(h, i, user, at);
    }
    hide BookAfter, RevokedSince, IndexLapsed;
  }

  /** One more call. */
  lemma CallKeepsIndex<J>(s: Store<J>, b: Book, made: map<string, int>, c: Call)
    requires Indexed(s, b, made, c.at) && Positive(c)
    requires c.Created? ==> c.token !in made && INT_MIN <= c.user <= INT_MAX
    ensures Indexed(Applied(s, c), BookNext(b, c), MadeNext(made, c), c.at)
  {
    hide Indexed, Create, Remove, RemoveAll, Swept, Relisted;
    match c
    case Created(at, user, seconds, token) => CreateKeepsIndex(s, b, made, user, seconds, token, at);
    case Removed(at, token) => RemoveKeepsIndex(s, b, made, token, at);
    case RemovedAll(at, user) => RemoveAllKeepsIndex(s, b, made, user, at);
  }

  lemma FreshToken(h: seq<Call>)
    requires Orderly(h) && h != [] && h[|h| - 1].Created?
    ensures h[|h| - 1].token !in MadeFor(h[..|h| - 1])
  {
    MadeForIs(h[..|h| - 1], h[|h| - 1].token);
  }

  /** The relation holds after every orderly history. */
  lemma {:induction false} ReplayIsIndexed<J>(h: seq<Call>, now: int)
    requires Orderly(h) && (h == [] || h[|h| - 1].at <= now)
    ensures Indexed<J>(Replay(h), BookAfter(h), MadeFor(h), now)
    decreases |h|
  {
    if h == [] {
    } else {
      hide Indexed, Applied, BookNext, MadeNext;
      var p := h[..|h| - 1];
      var last := h[|h| - 1];
      OrderlyPrefix(h);
      ReplayIsIndexed<J>(p, last.at);
      if last.Created? {
        FreshToken(h);
      }
      CallKeepsIndex<J>(Replay(p), BookAfter(p), MadeFor(p), last);
      TimePasses<J>(Replay(h), BookAfter(h), MadeFor(h), last.at, now);
    }
  }

  lemma StandingWasMade<J>(h: seq<Call>, token: string, now: int)
    requires AllPositive(h) && Indexed<J>(Replay(h), BookAfter(h), MadeFor(h), now)
    ensures token in BookAfter(h).tokens ==>
              exists i :: Creates(h, i, token, BookAfter(h).tokens[token].user)
  {
    MadeForIs(h, token);
    hide StandingIsListed, LiveIsStanding, SetsOwned, Replay, BookAfter, MadeFor;
  }

  lemma GrantedIsStanding(h: seq<Call>, token: string, user: int, now: int)
    requires Orderly(h) && (h == [] || h[|h| - 1].at <= now)
    requires token in BookAfter(h).tokens ==> exists i :: Creates(h, i, token, BookAfter(h).tokens[token].user)
    ensures Granted(h, token, user, now) <==>
            && token in BookAfter(h).tokens && BookAfter(h).tokens[token].user == user
            && now < BookAfter(h).tokens[token].deadline
  {
    hide RevokedSince, BookAfter;
    if Granted(h, token, user, now) {
      var i :| Creates(h, i, token, user) && now < End(h[i]) && !RevokedSince(h, i, token, user);
      BookFollows(h, i, token, user, now);
    }
    if token in BookAfter(h).tokens && BookAfter(h).tokens[token].user == user {
      var i :| Creates(h, i, token, user);
      BookFollows(h, i, token, user, now);
    }
  }

  /** After any history, a token stands for a user if and only if it was created for that user
      less than its lifetime ago and not taken back since: not removed, and not swept away by
      a removal of all the user's tokens at a moment when the index had not lapsed. */
  lemma LookupIsGranted<J>(h: seq<Call>, token: string, user: int, now: int)
    requires Orderly(h) && (h == [] || h[|h| - 1].at <= now)
    ensures Lookup<J>(Replay(h), token, now) == Some(user) <==> Granted(h, token, user, now)
  {
    hide Indexed, Granted, Lookup, Replay, BookAfter, MadeFor;
    ReplayIsIndexed<J>(h, now);
    LookupIsStanding<J>(Replay(h), BookAfter(h), MadeFor(h), token, now);
    StandingWasMade<J>(h, token, now);
    GrantedIsStanding(h, token, user, now);
  }

  /** When lifetimes never shorten, no index lapses while an older token lives. */
  lemma NoLapse(h: seq<Call>, i: nat, j: nat, user: int)
    requires Orderly(h) && NeverShortens(h) && i < j < |h| && CreatesFor(h[i], user) && h[j].at < End(h[i])
    ensures !IndexLapsed(h[..j], i, user, h[j].at)
  {
    var p := h[..j];
    forall k | i <= k < |p| && CreatesFor(p[k], user)
      ensures h[j].at < End(p[k])
    {
      assert p[k] == h[k];
    }
  }

  lemma RevokedPlainly(h: seq<Call>, i: int, token: string, user: int, now: int)
    requires Orderly(h) && NeverShortens(h) && Creates(h, i, token, user) && now < End(h[i]) && h[|h| - 1].at <= now
    ensures RevokedSince(h, i, token, user) <==> exists j :: i < j < |h| && RevokesPlainly(h[j], token, user)
  {
    forall j | i < j < |h|
      ensures Revokes(h, i, j, token, user) <==> RevokesPlainly(h[j], token, user)
    {
      assert h[j].at <= h[|h| - 1].at;
      NoLapse(h, i, j, user);
    }
    hide Revokes, RevokesPlainly, NeverShortens;
  }

  lemma GrantedPlainly(h: seq<Call>, token: string, user: int, now: int)
    requires Orderly(h) && NeverShortens(h) && (h == [] || h[|h| - 1].at <= now)
    ensures Granted(h, token, user, now) <==> PlainlyGranted(h, token, user, now)
  {
    hide RevokedSince, RevokesPlainly, Orderly, NeverShortens;
    forall i | Creates(h, i, token, user) && now < End(h[i])
      ensures RevokedSince(h, i, token, user) <==> exists j :: i < j < |h| && RevokesPlainly(h[j], token, user)
    {
      RevokedPlainly(h, i, token, user, now);
    }
  }

  /** Then removing all tokens of a user means what it says: a token stands exactly when it was
      created less than its lifetime ago, and neither it nor all of the user's tokens have
      been removed since. */
  lemma LookupIsPlainlyGranted<J>(h: seq<Call>, token: string, user: int, now: int)
    requires Orderly(h) && NeverShortens(h) && (h == [] || h[|h| - 1].at <= now)
    ensures Lookup<J>(Replay(h), token, now) == Some(user) <==> PlainlyGranted(h, token, user, now)
  {
    hide Granted, PlainlyGranted, Lookup, Replay, NeverShortens;
    LookupIsGranted<J>(h, token, user, now);
    GrantedPlainly(h, token, user, now);
  }

  /** Removing all tokens of a user misses a token that stands if and only if the user's index
      has lapsed since the token was created. */
  lemma SweepMissesIff<J>(h: seq<Call>, i: int, token: string, user: int, now: int)
    requires Orderly(h) && Creates(h, i, token, user) && h[|h| - 1].at <= now
    ensures Lookup<J>(Replay(h), token, now) == Some(user) ==>
              (Lookup<J>(RemoveAll(Replay(h), user, now), token, now) == Some(user) <==> IndexLapsed(h, i, user, now))
  {
    ReplayIsIndexed<J>(h, now);
    LookupIsStanding<J>(Replay(h), BookAfter(h), MadeFor(h), token, now);
    BookFollows(h, i, token, user, now);
    RevokesExactlyTheListed<J>(Replay(h), user, token, now);
    hide Lookup, Replay, BookAfter, MadeFor, RemoveAll, SMembers, IndexLapsed, RevokedSince;
    var b := BookAfter(h);
    assert token in b.tokens && now < b.tokens[token].deadline ==> Listed<J>(Replay(h), b, token, now);
  }

  // ------------------------------------------------- what the sets hold

  lemma SRemMembers<J>(s: Store<J>, key: string, member: string, now: int, later: int)
    requires now <= later
    ensures SMembers(SRem(s, key, member, now), key, later)
            == SMembers(s, key, later) - if Live(s, key, now) then {member} else {}
  {
  }

  /** Removing a token that stands takes that token off its user's set and nothing else, ends
      it, and touches no other token and no other set. */
  lemma UnlistsExactly<J>(s: Store<J>, token: string, user: int, now: int, later: int, other: int, t: string)
    requires Lookup(s, token, now) == Some(user) && now <= later
    ensures var n := Remove(s, token, now);
            && SMembers(n, SetKey(other), later)
               == SMembers(s, SetKey(other), later) - (if other == user then {token} else {})
            && Lookup(n, t, later) == if t == token then None else Lookup(s, t, later)
  {
    AllKeysApart();
    hide IsTokenKey, TokenOf, UserOf;
    hide TokenKey, SetKey, Strtol;
    SRemMembers(s, SetKey(user), token, now, later);
    var r := SRem(s, SetKey(user), token, now);
    assert TokenKey(t) != SetKey(user) && TokenKey(token) != SetKey(other);
    assert other != user ==> SetKey(other) != SetKey(user);
    assert SameAt(s, r, TokenKey(t)) && (other != user ==> SameAt(s, r, SetKey(other)));
    assert t != token ==> TokenKey(t) != TokenKey(token);
  }

  /** A call that takes the token of a user, which ends at a time, off the user's set: its
      removal before it has ended, or the removal of all the user's tokens. */
  predicate Unlists(c: Call, token: string, user: int, end: int) {
    (c.Removed? && c.token == token && c.at < end) || (c.RemovedAll? && c.user == user)
  }

  ghost predicate NeverUnlisted(h: seq<Call>, i: nat, token: string, user: int)
    requires Creates(h, i, token, user)
  {
    forall j :: i < j < |h| ==> !Unlists(h[j], token, user, End(h[i]))
  }

  lemma NeverUnlistedSnoc(h: seq<Call>, i: nat, token: string, user: int)
    requires i < |h| - 1 && Creates(h, i, token, user)
    ensures Creates(h[..|h| - 1], i, token, user)
    ensures NeverUnlisted(h, i, token, user)
            <==> NeverUnlisted(h[..|h| - 1], i, token, user) && !Unlists(h[|h| - 1], token, user, End(h[i]))
  {
    var p := h[..|h| - 1];
    assert forall j :: 0 <= j < |p| ==> p[j] == h[j];
  }

  /** A token nobody has taken off its set stands until its end. */
  lemma ListedStands<J>(h: seq<Call>, i: nat, token: string, user: int, now: int)
    requires Orderly(h) && Creates(h, i, token, user) && NeverUnlisted(h, i, token, user) && h[|h| - 1].at <= now
    ensures Lookup<J>(Replay(h), token, now) == Some(user) <==> now < End(h[i])
  {
    LookupIsGranted<J>(h, token, user, now);
    hide Lookup, Replay;
    if Granted(h, token, user, now) {
      var k :| Creates(h, k, token, user) && now < End(h[k]) && !RevokedSince(h, k, token, user);
      assert k == i;
    }
    if now < End(h[i]) {
      assert !RevokedSince(h, i, token, user);
    }
  }

  lemma SetIsMembers<J>(h: seq<Call>, user: int, now: int)
    requires Orderly(h) && (h == [] || h[|h| - 1].at <= now)
    ensures var s: Store<J> := Replay(h);
            SetKey(user) in s ==> SetOwned(s[SetKey(user)], user, BookAfter(h).ends, MadeFor(h))
  {
    ReplayIsIndexed<J>(h, now);
    SetsOwnedAt<J>(Replay(h), BookAfter(h).ends, MadeFor(h), user);
    hide StandingIsListed, LiveIsStanding, MadeForOwner, SetOwned, Replay, BookAfter, MadeFor;
  }

  /** What one call does to the set of a user, seen at a later time. */
  lemma CallThenMembers<J>(s: Store<J>, c: Call, user: int, at: int)
    requires Positive(c) && c.at <= at && (SetKey(user) in s ==> s[SetKey(user)].value.Members?)
    ensures var n := Applied(s, c);
            var key := SetKey(user);
            SMembers(n, key, at) == match c
              case Created(_, u, _, t) =>
                if u != user then SMembers(s, key, at)
                else if at < End(c) then SMembers(s, key, c.at) + {t}
                else {}
              case Removed(_, t) => SMembers(s, key, at) - if Lookup(s, t, c.at) == Some(user) then {t} else {}
              case RemovedAll(_, u) => if u != user then SMembers(s, key, at) else {}
  {
    match c
    case Created(_, u, seconds, t) =>
      CreatedMembers(s, u, seconds, t, c.at, user, at);
    case Removed(_, t) =>
      if Lookup(s, t, c.at).Some? {
        UnlistsExactly(s, t, Lookup(s, t, c.at).value, c.at, at, user, t);
      }
      hide Lookup, SMembers, SetKey, TokenKey;
    case RemovedAll(_, u) =>
      if u == user {
        assert SetKey(user) !in RemoveAll(s, user, c.at);
      } else {
        RemoveAllHasEffect(s, u, c.at);
        hide RemoveAll, SetKey, TokenKey;
        StaysListed(s, RemoveAll(s, u, c.at), user, at);
      }
  }

  lemma CreatedMembers<J>(s: Store<J>, u: int, seconds: int, t: string, now: int, user: int, at: int)
    requires seconds > 0 && now <= at && (SetKey(user) in s ==> s[SetKey(user)].value.Members?)
    ensures SMembers(Create(s, u, seconds, t, now), SetKey(user), at)
            == if u != user then SMembers(s, SetKey(user), at)
               else if at < now + seconds then SMembers(s, SetKey(user), now) + {t}
               else {}
  {
    if u == user {
      CreateHasEffect(s, user, seconds, t, now);
      hide Create, SetKey, TokenKey;
    } else {
      KeysApart(t, user, u, t);
      hide TokenKey, SetKey, IntToString;
      StaysListed(s, Create(s, u, seconds, t, now), user, at);
    }
  }

  /** After every history of calls, a token is in its user's set if and only if the index has
      covered it without a break since its creation, and no call has taken it off. */
  lemma {:induction false} MembersFollowTheCalls<J>(h: seq<Call>, i: nat, token: string, user: int, at: int)
    requires Orderly(h) && Creates(h, i, token, user) && h[|h| - 1].at <= at
    ensures token in SMembers<J>(Replay(h), SetKey(user), at)
            <==> !IndexLapsed(h, i, user, at) && NeverUnlisted(h, i, token, user)
    decreases |h|
  {
    var p, last := h[..|h| - 1], h[|h| - 1];
    OrderlyPrefix(h);
    assert p != [] ==> p[|p| - 1].at <= last.at;
    SetIsMembers<J>(p, user, last.at);
    CallThenMembers<J>(Replay(p), last, user, at);
    if i == |h| - 1 {
      LapseBegins(h, user, at);
    } else {
      NeverUnlistedSnoc(h, i, token, user);
      MembersFollowTheCalls<J>(p, i, token, user, at);
      MembersFollowTheCalls<J>(p, i, token, user, last.at);
      if CreatesFor(last, user) {
        LapseGoesOn(h, i, user, at);
      } else {
        LapseStays(h, i, user, at);
      }
      if NeverUnlisted(p, i, token, user) {
        ListedStands<J>(p, i, token, user, last.at);
      }
      hide IndexLapsed, NeverUnlisted, Lookup, SMembers, Orderly, SetKey;
      assert last.Created? ==> last.token != token;
    }
  }

  // --------------------------------------------- when lifetimes may differ

  /** In any store, removing all tokens of a user revokes exactly the tokens its set still
      lists at that moment, and leaves every other token as it was. */
  lemma RevokesExactlyTheListed<J>(s: Store<J>, user: int, token: string, now: int)
    ensures Lookup(RemoveAll(s, user, now), token, now)
            == if token in SMembers(s, SetKey(user), now) then None else Lookup(s, token, now)
    ensures SetKey(user) !in RemoveAll(s, user, now)
  {
    AllKeysApart();
    hide IsTokenKey, TokenOf, UserOf;
    RemoveAllHasEffect(s, user, now);
    assert SetKey(user) !in RemoveAll(s, user, now);
    hide TokenKey, SetKey, SMembers, Strtol, RemoveAll;
    if token !in SMembers(s, SetKey(user), now) {
      StaysLive(s, RemoveAll(s, user, now), token, now);
    }
  }

  /** Two tokens of one user with lifetimes of their own: a later token of shorter life
      shortens the index, and the first token then escapes a removal of all, exactly from
      the end of the second on until its own end. */
  lemma ShorterLifetimeHidesAToken<J>(user: int, first: string, second: string,
                                      at1: int, seconds1: int, at2: int, seconds2: int, now: int)
    requires INT_MIN <= user <= INT_MAX && first != second && seconds1 > 0 && seconds2 > 0
    requires at1 <= at2 < at1 + seconds1 && at2 <= now < at1 + seconds1
    ensures var s: Store<J> := Create(Create(map[], user, seconds1, first, at1), user, seconds2, second, at2);
            && Lookup(s, first, now) == Some(user)
            && (Lookup(RemoveAll(s, user, now), first, now) == Some(user) <==> at2 + seconds2 <= now)
  {
    AllKeysApart();
    hide IsTokenKey, TokenOf, UserOf;
    var empty: Store<J> := map[];
    var s1 := Create(empty, user, seconds1, first, at1);
    var s := Create(s1, user, seconds2, second, at2);
    CreateHasEffect(empty, user, seconds1, first, at1);
    CreateHasEffect(s1, user, seconds2, second, at2);
    RevokesExactlyTheListed(s, user, first, now);
    UserReadBack(user);
    hide TokenKey, SetKey, IntToString, Create, RemoveAll, Strtol;
    assert SameAt(s1, s, TokenKey(first));
    assert first in s[SetKey(user)].value.members;
  }

  // ------------------------------------------------------------ the manager

  class TokenManager<J> {
    var connected: bool       // redis_ is set
    var redis: Store<J>

    constructor (connect: bool)
      ensures connected == connect && redis == map[]
    {
      connected, redis := connect, map[];
    }

    /** createToken; SETEX refuses a lifetime that is not positive, and nothing is stored. */
    method CreateToken(userId: int, expireSeconds: int, drawn: string, now: int) returns (token: string)
      modifies `redis
      ensures connected && expireSeconds > 0 ==>
                && token == drawn && redis == Create(old(redis), userId, expireSeconds, drawn, now)
                && "token:" + drawn in redis
                && redis["token:" + drawn] == Entry(Text(IntToString(userId)), Some(now + expireSeconds))
      ensures !connected || expireSeconds <= 0 ==> token == "" && redis == old(redis)
    {
      if !connected {
        return "";
      }
      var key := TokenKey(drawn);
      var setKey := SetKey(userId);
      if expireSeconds <= 0 {
        return "";
      }
      KeysApart(drawn, userId, userId, drawn);
      redis := SetEx(redis, key, expireSeconds, Text(IntToString(userId)), now);
      redis := SAdd(redis, setKey, drawn, now);
      redis := Expire(redis, setKey, expireSeconds, now);
      return drawn;
    }

    /** verifyToken: the user, -1 for a token that does not stand, -2 without Redis. */
    method VerifyToken(token: string, now: int) returns (r: int)
      ensures !connected ==> r == -2
      ensures connected ==> r == if token != "" && Lookup(redis, token, now).Some?
                                 then Lookup(redis, token, now).value else -1
    {
      if !connected {
        return -2;
      }
      if token == "" {
        return -1;
      }
      var val := Get(redis, TokenKey(token), now);
      if val.Some? && val.value.Text? {
        return Strtol(val.value.text, 0).0;
      }
      return -1;
    }

    method RemoveToken(token: string, now: int)
      modifies `redis
      ensures redis == if connected && token != "" then Remove(old(redis), token, now) else old(redis)
    {
      if !connected || token == "" {
        return;
      }
      var key := TokenKey(token);
      var val := Get(redis, key, now);
      if val.Some? && val.value.Text? {
        var userId := Strtol(val.value.text, 0).0;
        redis := SRem(redis, SetKey(userId), token, now);
        redis := Del(redis, key);
      }
    }

    /** removeAllTokensForUser: the members first, then one deletion each, then the set. */
    method RemoveAllTokensForUser(userId: int, now: int)
      modifies `redis
      ensures redis == if connected then RemoveAll(old(redis), userId, now) else old(redis)
    {
      if !connected {
        return;
      }
      var setKey := SetKey(userId);
      var tokens := SMembers(redis, setKey, now);
      var rest := tokens;
      while rest != {}
        invariant rest <= tokens
        invariant redis == old(redis) - (set t | t in tokens && t !in rest :: TokenKey(t))
        decreases rest
      {
        var token :| token in rest;
        ghost var before := set t | t in tokens && t !in rest :: TokenKey(t);
        rest := rest - {token};
        assert (set t | t in tokens && t !in rest :: TokenKey(t)) == before + {TokenKey(token)};
        redis := Del(redis, TokenKey(token));
      }
      assert (set t | t in tokens && t !in rest :: TokenKey(t)) == (set t | t in tokens :: TokenKey(t));
      redis := Del(redis, setKey);
    }
  }
}
