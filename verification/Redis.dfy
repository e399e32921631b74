/** The part of Redis the services use, as a map with deadlines read under a clock in
    seconds. J is the type of cached JSON documents. A key whose deadline has been
    reached is absent. */
module RedisStore {
  import opened Basics

  datatype Value<J> =
    | Text(text: string)
    | Members(members: set<string>)
    | Count(count: int)
    | Json(document: J)

  datatype Entry<J> = Entry(value: Value<J>, deadline: Option<int>)

  type Store<J> = map<string, Entry<J>>

  predicate Live<J>(s: Store<J>, key: string, now: int) {
    key in s && (s[key].deadline.Some? ==> now < s[key].deadline.value)
  }

  /** GET */
  function Get<J>(s: Store<J>, key: string, now: int): Option<Value<J>> {
    if Live(s, key, now) then Some(s[key].value) else None
  }

  /** SETEX */
  function SetEx<J>(s: Store<J>, key: string, seconds: int, value: Value<J>, now: int): Store<J>
    requires seconds > 0
  {
    s[key := Entry(value, Some(now + seconds))]
  }

  /** DEL */
  function Del<J>(s: Store<J>, key: string): Store<J> { s - {key} }

  /** EXPIRE: a time that is not in the future deletes the key. */
  function Expire<J>(s: Store<J>, key: string, seconds: int, now: int): Store<J> {
    if !Live(s, key, now) then s
    else if seconds <= 0 then Del(s, key)
    else s[key := s[key].(deadline := Some(now + seconds))]
  }

  /** SADD: a key that is absent starts as an empty set without a deadline. */
  function SAdd<J>(s: Store<J>, key: string, member: string, now: int): Store<J> {
    if !Live(s, key, now) then s[key := Entry(Members({member}), None)]
    else if s[key].value.Members? then s[key := s[key].(value := Members(s[key].value.members + {member}))]
    else s
  }

  /** SMEMBERS */
  function SMembers<J>(s: Store<J>, key: string, now: int): set<string> {
    if Live(s, key, now) && s[key].value.Members? then s[key].value.members else {}
  }

  /** SREM: a set that becomes empty disappears. */
  function SRem<J>(s: Store<J>, key: string, member: string, now: int): Store<J> {
    if !Live(s, key, now) || !s[key].value.Members? then s
    else
      var left := s[key].value.members - {member};
      if left == {} then Del(s, key) else s[key := s[key].(value := Members(left))]
  }

  /** INCR: the new count. */
  function Incr<J>(s: Store<J>, key: string, now: int): (Store<J>, int) {
    if !Live(s, key, now) then (s[key := Entry(Count(1), None)], 1)
    else if s[key].value.Count? then
      (s[key := s[key].(value := Count(s[key].value.count + 1))], s[key].value.count + 1)
    else (s, 0)
  }
}
