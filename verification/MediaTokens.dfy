/** The store of expiring media tokens (desktop/app.go:153-257), against the log of every
    token it ever made. */
module MediaTokens {
  import opened Common

  type Token = string

  datatype Entry = Entry(file: string, createdAt: int, expiresAt: int)

  datatype Creation = Creation(token: Token, entry: Entry)

  predicate FreshTokens(log: seq<Creation>) {
    forall i, j :: 0 <= i < j < |log| ==> log[i].token != log[j].token
  }

  function Tokens(log: seq<Creation>): (r: seq<Token>)
    ensures |r| == |log| && forall i :: 0 <= i < |log| ==> r[i] == log[i].token
  {
    seq(|log|, i requires 0 <= i < |log| => log[i].token)
  }

  /** What a store that kept everything would answer: only the last `limit` creations
      count, up to and including the moment they expire. */
  function LogGet(log: seq<Creation>, limit: nat, token: Token, now: int): Option<Entry> {
    if log == [] || limit == 0 then None
    else
      var last := log[|log| - 1];
      if last.token == token then (if now <= last.entry.expiresAt then Some(last.entry) else None)
      else LogGet(log[..|log| - 1], limit - 1, token, now)
  }

  /** What the store answers. */
  function Answer(byTok: map<Token, Entry>, token: Token, now: int): Option<Entry> {
    if token in byTok && now <= byTok[token].expiresAt then Some(byTok[token]) else None
  }

  /** The reference answer for the `i`th creation. */
  lemma {:induction false} LogGetAt(log: seq<Creation>, limit: nat, now: int, i: nat)
    requires FreshTokens(log) && i < |log|
    ensures LogGet(log, limit, log[i].token, now) ==
            if |log| - 1 - i < limit && now <= log[i].entry.expiresAt then Some(log[i].entry) else None
  {
    var n := |log| - 1;
    if limit > 0 && i < n {
      assert log[..n][i] == log[i] && log[n].token != log[i].token;
      LogGetAt(log[..n], limit - 1, now, i);
    }
  }

  lemma {:induction false} LogGetUnknown(log: seq<Creation>, limit: nat, token: Token, now: int)
    requires forall i :: 0 <= i < |log| ==> log[i].token != token
    ensures LogGet(log, limit, token, now) == None
  {
    if log != [] && limit > 0 {
      LogGetUnknown(log[..|log| - 1], limit - 1, token, now);
    }
  }

  /** `order` is the log from `dropped` on, live tokens are in it with their entries,
      tokens it lists without an entry are expired, and the dropped ones are expired or
      more than `limit` old. */
  ghost predicate Agreement(log: seq<Creation>, dropped: nat, byTok: map<Token, Entry>, order: seq<Token>, clock: int, limit: nat) {
    && FreshTokens(log) && dropped <= |log| && order == Tokens(log)[dropped..]
    && (forall i :: dropped <= i < |log| && log[i].token in byTok ==> byTok[log[i].token] == log[i].entry)
    && (forall token :: token in byTok ==> token in order)
    && (forall i :: dropped <= i < |log| && log[i].token !in byTok ==> log[i].entry.expiresAt < clock)
    && (forall i :: 0 <= i < dropped ==> log[i].entry.expiresAt <= clock || |log| - i > limit)
  }

  lemma DropKeepsAgreement(log: seq<Creation>, dropped: nat, byTok: map<Token, Entry>, order: seq<Token>, clock: int, limit: nat)
    requires Agreement(log, dropped, byTok, order, clock, limit) && order != []
    requires log[dropped].entry.expiresAt <= clock || |order| > limit
    ensures Agreement(log, dropped + 1, byTok - {order[0]}, order[1..], clock, limit)
  {
    var rest, left := order[1..], byTok - {order[0]};
    assert order[0] == log[dropped].token;
    assert rest == Tokens(log)[dropped + 1..];
    forall token | token in left ensures token in rest {
      assert token in order && token != order[0];
    }
    forall i | dropped + 1 <= i < |log| ensures log[i].token in left <==> log[i].token in byTok {
      assert log[i].token != log[dropped].token;
    }
  }

  /** The tokens from `dropped` on are listed, and no others. */
  lemma ListedFrom(log: seq<Creation>, dropped: nat, i: nat)
    requires FreshTokens(log) && dropped <= |log| && i < |log|
    ensures log[i].token in Tokens(log)[dropped..] <==> i >= dropped
  {
    var order := Tokens(log)[dropped..];
    if i >= dropped {
      assert order[i - dropped] == log[i].token;
    }
    if k :| 0 <= k < |order| && order[k] == log[i].token {
      assert log[dropped + k].token == log[i].token;
    }
  }

  /** Time passes, and a token found expired may go from the map. */
  lemma ExpiryKeepsAgreement(log: seq<Creation>, dropped: nat, byTok: map<Token, Entry>, order: seq<Token>, clock: int, limit: nat,
                             token: Token, now: int)
    requires Agreement(log, dropped, byTok, order, clock, limit) && clock <= now
    ensures Agreement(log, dropped, byTok, order, now, limit)
    ensures token in byTok && byTok[token].expiresAt < now ==> Agreement(log, dropped, byTok - {token}, order, now, limit)
  {}

  class MediaTokenStore {
    var byTok: map<Token, Entry>
    var order: seq<Token>
    const maxN: nat
    const ttl: int

    /** Every creation, oldest first; how many of them `order` has let go; the latest
        time seen. */
    ghost var log: seq<Creation>
    ghost var dropped: nat
    ghost var clock: int

    ghost predicate Agrees()
      reads this
    {
      Agreement(log, dropped, byTok, order, clock, maxN)
    }

    ghost predicate Valid()
      reads this
    {
      Agrees() && |order| <= maxN
    }

    constructor (limit: nat, life: int, now: int)
      ensures Valid() && log == [] && maxN == limit && ttl == life && clock == now
    {
      maxN, ttl := limit, life;
      byTok, order := map[], [];
      log, dropped, clock := [], 0, now;
    }

    /** Lets the oldest token go. */
    method DropOldest()
      requires Agrees() && order != []
      requires log[dropped].entry.expiresAt <= clock || |order| > maxN
      modifies this
      ensures Agrees() && log == old(log) && clock == old(clock)
      ensures order == old(order)[1..] && byTok == old(byTok) - {old(order)[0]}
    {
      DropKeepsAgreement(log, dropped, byTok, order, clock, maxN);
      byTok := byTok - {order[0]};
      order := order[1..];
      dropped := dropped + 1;
    }

    method TrimToLimit()
      requires Agrees()
      modifies this
      ensures Valid() && log == old(log) && clock == old(clock)
      ensures |old(order)| <= maxN ==> order == old(order) && byTok == old(byTok)
    {
      while |order| > maxN
        invariant Agrees() && log == old(log) && clock == old(clock)
        invariant |old(order)| <= maxN ==> order == old(order) && byTok == old(byTok)
        decreases |order|
      {
        DropOldest();
      }
    }

    /** Afterwards the oldest token listed, if any, is live. */
    method Cleanup(now: int)
      requires Valid() && clock <= now
      modifies this
      ensures Valid() && log == old(log) && clock == now
      ensures order != [] ==> order[0] in byTok && now < byTok[order[0]].expiresAt
    {
      clock := now;
      while |order| > 0
        invariant Valid() && log == old(log) && clock == now
        decreases |order|
      {
        assert order[0] == log[dropped].token;
        if order[0] in byTok && now < byTok[order[0]].expiresAt {
          break;
        }
        DropOldest();
      }
      TrimToLimit();
    }

    /** Adds one creation to the log, whatever has to go to make room. */
    method Create(token: Token, file: string, cleanedAt: int, now: int)
      requires Valid() && clock <= cleanedAt <= now
      requires forall i :: 0 <= i < |log| ==> log[i].token != token
      modifies this
      ensures Valid() && clock == now
      ensures log == old(log) + [Creation(token, Entry(file, now, now + ttl))]
    {
      Cleanup(cleanedAt);
      var entry := Entry(file, now, now + ttl);
      Append(token, entry, now);
      TrimToLimit();
    }

    method Append(token: Token, entry: Entry, now: int)
      requires Valid() && clock <= now
      requires forall i :: 0 <= i < |log| ==> log[i].token != token
      modifies this
      ensures Agrees() && clock == now && log == old(log) + [Creation(token, entry)]
      ensures byTok == old(byTok)[token := entry] && order == old(order) + [token]
    {
      byTok := byTok[token := entry];
      order := order + [token];
      log := log + [Creation(token, entry)];
      clock := now;
    }

    /** Answers as the log does, except that a token may already be gone at the very
        moment it expires. */
    method Get(token: Token, now: int) returns (r: Option<Entry>)
      requires Valid() && clock <= now
      modifies this
      ensures Valid() && log == old(log) && order == old(order) && clock == now
      ensures r == Answer(old(byTok), token, now)
      ensures byTok == if r.Some? then old(byTok) else old(byTok) - {token}
      ensures var answer := LogGet(log, maxN, token, now);
              r == answer || (r == None && answer.Some? && answer.value.expiresAt == now)
    {
      AnswerFor(token, now);
      ExpiryKeepsAgreement(log, dropped, byTok, order, clock, maxN, token, now);
      clock := now;
      if token !in byTok {
        return None;
      }
      if now > byTok[token].expiresAt {
        byTok := byTok - {token};
        return None;
      }
      return Some(byTok[token]);
    }

    /** How the state decides the log's answer for a token. */
    lemma AnswerFor(token: Token, now: int)
      requires Valid() && clock <= now
      ensures var answer := LogGet(log, maxN, token, now);
              if token in byTok then answer == (if now <= byTok[token].expiresAt then Some(byTok[token]) else None)
              else answer.Some? ==> answer.value.expiresAt == now
    {
      if i :| 0 <= i < |log| && log[i].token == token {
        AnswerForLogged(i, now);
      } else {
        LogGetUnknown(log, maxN, token, now);
      }
    }

    lemma AnswerForLogged(i: nat, now: int)
      requires Valid() && clock <= now && i < |log|
      ensures var answer := LogGet(log, maxN, log[i].token, now);
              if log[i].token in byTok then answer == (if now <= log[i].entry.expiresAt then Some(log[i].entry) else None)
              else answer.Some? ==> answer.value.expiresAt == now
      ensures log[i].token in byTok ==> byTok[log[i].token] == log[i].entry
    {
      LogGetAt(log, maxN, now, i);
      ListedFrom(log, dropped, i);
    }
  }

  /** A token answers with its own entry while fewer than `limit` are newer and its time
      is not over: always before it expires, never after, and at that very moment as long
      as it is still listed. */
  lemma TokenLifetime(log: seq<Creation>, dropped: nat, byTok: map<Token, Entry>, order: seq<Token>, clock: int, limit: nat,
                      now: int, i: nat)
    requires Agreement(log, dropped, byTok, order, clock, limit) && |order| <= limit && clock <= now && i < |log|
    ensures var token, entry := log[i].token, log[i].entry;
            Answer(byTok, token, now) ==
            if |log| - 1 - i < limit && (now < entry.expiresAt || (now == entry.expiresAt && token in order)) then Some(entry) else None
  {
    ListedFrom(log, dropped, i);
  }
}
