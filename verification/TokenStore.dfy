/**
 Issued device tokens in the file repository: the map of tokens, the index from hash to token, and their reload from
 the file. internal/store/file_repository.go:347-434, 442-498 and 530-553.

 What is written to the file is the map alone; the index is rebuilt from it in whatever order the map is walked.
 */
module TokenStore {
  import opened Common

  datatype Token = Token(id: string, hash: string, lastUsedAt: Option<int>, revokedAt: Option<int>)

  type Tokens = map<string, Token>
  type Index = map<string, string>

  /** tokens and index are in memory; file is what the last successful flush wrote. */
  datatype State = State(tokens: Tokens, index: Index, file: Tokens)

  const EMPTY := State(map[], map[], map[])

  /** flushed says whether the file could be written; order is the order in which the map is walked. */
  datatype Op =
    | Save(token: Token, flushed: bool)
    | Touch(id: string, at: int, flushed: bool)
    | Revoke(id: string, at: int, flushed: bool)
    | Reload(order: seq<string>)

  function Find(s: State, hash: string): Option<Token> {
    if hash in s.index && s.index[hash] in s.tokens then Some(s.tokens[s.index[hash]]) else None
  }

  predicate Conflicts(s: State, token: Token) {
    token.hash in s.index && s.index[token.hash] != token.id
  }

  /** The state in memory after a change, and the file if it could be written. */
  function Flush(s: State, flushed: bool): State {
    if flushed then s.(file := s.tokens) else s
  }

  /** The order names every key once. */
  ghost predicate Walks(order: seq<string>, tokens: Tokens) {
    && (forall id :: id in order <==> id in tokens)
    && forall i, j :: 0 <= i < j < |order| ==> order[i] != order[j]
  }

  function Rebuild(tokens: Tokens, order: seq<string>): Index
    requires forall id :: id in order ==> id in tokens
  {
    if order == [] then map[]
    else
      var id := order[|order| - 1];
      assert forall k :: k in order[..|order| - 1] ==> k in order;
      var index := Rebuild(tokens, order[..|order| - 1]);
      if tokens[id].hash != "" then index[tokens[id].hash := id] else index
  }

  /** A reload that does not walk the whole map is no operation of the program, and is skipped. */
  ghost function Next(s: State, op: Op): State {
    match op
    case Save(token, flushed) =>
      if Conflicts(s, token) then s
      else Flush(s.(tokens := s.tokens[token.id := token], index := s.index[token.hash := token.id]), flushed)
    case Touch(id, at, flushed) =>
      if id !in s.tokens then s
      else Flush(s.(tokens := s.tokens[id := s.tokens[id].(lastUsedAt := Some(at))]), flushed)
    case Revoke(id, at, flushed) =>
      if id !in s.tokens then s
      else Flush(s.(tokens := s.tokens[id := s.tokens[id].(revokedAt := Some(at))]), flushed)
    case Reload(order) =>
      if !Walks(order, s.file) then s else State(s.file, Rebuild(s.file, order), s.file)
  }

  ghost function After(run: seq<Op>): State {
    if run == [] then EMPTY else Next(After(run[..|run| - 1]), run[|run| - 1])
  }

  // ---- What each operation does ----

  /** Nothing but the token of this id has changed, and the file is as the memory or as it was. */
  ghost predicate ChangesOnly(s: State, t: State, id: string, flushed: bool) {
    && (forall other :: other != id ==> (other in s.tokens <==> other in t.tokens))
    && (forall other :: other != id && other in s.tokens ==> t.tokens[other] == s.tokens[other])
    && t.file == if flushed then t.tokens else s.file
  }

  /** A token that is saved is found by its hash, as it was saved. */
  lemma SavedIsFound(s: State, token: Token, flushed: bool)
    requires !(token.hash in s.index && s.index[token.hash] != token.id)
    ensures var t := Next(s, Save(token, flushed));
            && Find(t, token.hash) == Some(token) && t.tokens[token.id] == token && ChangesOnly(s, t, token.id, flushed)
            && forall hash :: hash != token.hash ==>
                 (hash in t.index <==> hash in s.index) && (hash in s.index ==> t.index[hash] == s.index[hash])
  {
  }

  /** Using a token sets the time of its use, revoking it that of its revocation, and neither sets anything else. */
  lemma TouchAndRevoke(s: State, id: string, at: int, flushed: bool)
    requires id in s.tokens
    ensures var was, touched, revoked := s.tokens[id], Next(s, Touch(id, at, flushed)), Next(s, Revoke(id, at, flushed));
            && ChangesOnly(s, touched, id, flushed) && ChangesOnly(s, revoked, id, flushed)
            && touched.index == s.index == revoked.index && id in touched.tokens && id in revoked.tokens
            && touched.tokens[id] == Token(was.id, was.hash, Some(at), was.revokedAt)
            && revoked.tokens[id] == Token(was.id, was.hash, was.lastUsedAt, Some(at))
  {
  }

  /** The operation neither saves nor revokes the token, nor reads the file again. */
  predicate LeavesRevoked(op: Op, id: string) {
    match op
    case Save(token, _) => token.id != id
    case Touch(_, _, _) => true
    case Revoke(other, _, _) => other != id
    case Reload(_) => false
  }

  /** A revoked token stays revoked, since the same time, whatever is done with it and others but saving or revoking it. */
  lemma {:induction false} RevokedStaysRevoked(run: seq<Op>, id: string, at: int, flushed: bool, more: seq<Op>)
    requires id in After(run).tokens && forall k :: 0 <= k < |more| ==> LeavesRevoked(more[k], id)
    ensures var s := After(run + [Revoke(id, at, flushed)] + more); id in s.tokens && s.tokens[id].revokedAt == Some(at)
    decreases |more|
  {
    var revoked := run + [Revoke(id, at, flushed)];
    if more == [] {
      assert revoked + more == revoked && revoked[..|run|] == run;
      TouchAndRevoke(After(run), id, at, flushed);
    } else {
      var n := |more| - 1;
      RevokedStaysRevoked(run, id, at, flushed, more[..n]);
      var all := revoked + more;
      assert all[..|all| - 1] == revoked + more[..n] && all[|all| - 1] == more[n];
      RevokedSurvives(After(revoked + more[..n]), more[n], id, at);
    }
  }

  lemma RevokedSurvives(s: State, op: Op, id: string, at: int)
    requires id in s.tokens && s.tokens[id].revokedAt == Some(at) && LeavesRevoked(op, id)
    ensures id in Next(s, op).tokens && Next(s, op).tokens[id].revokedAt == Some(at)
  {
  }

  // ---- What holds after every run ----

  /** The index leads from the hash of every token, unless it is empty, to that token. */
  ghost predicate Covers(index: Index, tokens: Tokens) {
    forall id :: id in tokens && tokens[id].hash != "" ==> tokens[id].hash in index && index[tokens[id].hash] == id
  }

  /** No two tokens share a hash that is not empty. */
  ghost predicate Unique(tokens: Tokens) {
    forall a, b :: a in tokens && b in tokens && tokens[a].hash == tokens[b].hash != "" ==> a == b
  }

  ghost predicate Invariant(s: State) {
    && Covers(s.index, s.tokens)
    && (forall hash :: hash in s.index ==> s.index[hash] in s.tokens)
    && Unique(s.file)
  }

  lemma CoveredIsUnique(index: Index, tokens: Tokens)
    requires Covers(index, tokens)
    ensures Unique(tokens)
  {
  }

  /** What a walk over unique hashes makes of the index, whatever its order. */
  lemma {:induction false} RebuildMeaning(tokens: Tokens, order: seq<string>)
    requires Unique(tokens) && forall id :: id in order ==> id in tokens
    ensures var index := Rebuild(tokens, order);
            && (forall id :: id in order && tokens[id].hash != "" ==>
                  tokens[id].hash in index && index[tokens[id].hash] == id)
            && (forall hash :: hash in index ==>
                  hash != "" && index[hash] in order && tokens[index[hash]].hash == hash)
  {
    if order != [] {
      var before, last := order[..|order| - 1], order[|order| - 1];
      assert forall id :: id in order <==> id in before || id == last;
      RebuildMeaning(tokens, before);
    }
  }

  lemma StepKeepsInvariant(s: State, op: Op)
    requires Invariant(s)
    ensures Invariant(Next(s, op))
  {
    CoveredIsUnique(s.index, s.tokens);
    match op
    case Save(token, flushed) =>
      if !Conflicts(s, token) {
        CoveredIsUnique(s.index[token.hash := token.id], s.tokens[token.id := token]);
      }
    case Touch(_, _, _) =>
    case Revoke(_, _, _) =>
    case Reload(order) =>
      if Walks(order, s.file) {
        RebuildMeaning(s.file, order);
      }
  }

  lemma {:induction false} InvariantHolds(run: seq<Op>)
    ensures Invariant(After(run))
  {
    if run != [] {
      InvariantHolds(run[..|run| - 1]);
      StepKeepsInvariant(After(run[..|run| - 1]), run[|run| - 1]);
    }
  }

  /** Whatever is saved, touched, revoked, lost or reloaded: every stored token is found by its own hash. */
  lemma EveryTokenIsFound(run: seq<Op>, id: string)
    requires id in After(run).tokens && After(run).tokens[id].hash != ""
    ensures Find(After(run), After(run).tokens[id].hash) == Some(After(run).tokens[id])
  {
    InvariantHolds(run);
  }

  lemma HashesAreUnique(run: seq<Op>, a: string, b: string)
    requires a in After(run).tokens && b in After(run).tokens
    requires After(run).tokens[a].hash == After(run).tokens[b].hash != ""
    ensures a == b
  {
    InvariantHolds(run);
  }

  // ---- Reload ----

  /** The rebuilt index does not depend on the order of the walk. */
  lemma OrderIsIrrelevant(run: seq<Op>, order: seq<string>, order': seq<string>)
    requires Walks(order, After(run).file) && Walks(order', After(run).file)
    ensures After(run + [Reload(order)]) == After(run + [Reload(order')])
  {
    InvariantHolds(run);
    AfterSnoc(run, Reload(order));
    AfterSnoc(run, Reload(order'));
    SameIndex(After(run).file, order, order');
  }

  lemma SameIndex(tokens: Tokens, order: seq<string>, order': seq<string>)
    requires Unique(tokens) && Walks(order, tokens) && Walks(order', tokens)
    ensures Rebuild(tokens, order) == Rebuild(tokens, order')
  {
    RebuildMeaning(tokens, order);
    RebuildMeaning(tokens, order');
    var a, b := Rebuild(tokens, order), Rebuild(tokens, order');
    assert forall hash :: hash in a ==> hash in b && a[hash] == b[hash];
    assert forall hash :: hash in b ==> hash in a;
  }

  /** An entry left behind when its token was saved again under another hash, or the entry of an empty hash. */
  ghost predicate Stale(s: State, hash: string) {
    && hash in s.index && s.index[hash] in s.tokens
    && (hash == "" || s.tokens[s.index[hash]].hash != hash)
  }

  lemma RebuiltAnswers(s: State, index: Index, hash: string)
    requires Invariant(s) && Covers(index, s.tokens)
    requires forall h :: h in index ==> h != "" && index[h] in s.tokens && s.tokens[index[h]].hash == h
    ensures Find(State(s.tokens, index, s.tokens), hash) == Find(s, hash) <==> !Stale(s, hash)
  {
    if hash in index {
      var id := index[hash];
      assert s.tokens[id].hash == hash && s.index[hash] == id;
    }
  }

  /** When the file is up to date a reload changes no answer but those that came from a stale entry. */
  lemma ReloadAgreesIff(run: seq<Op>, order: seq<string>, hash: string)
    requires After(run).file == After(run).tokens && Walks(order, After(run).file)
    ensures Find(After(run + [Reload(order)]), hash) == Find(After(run), hash) <==> !Stale(After(run), hash)
  {
    InvariantHolds(run);
    AfterSnoc(run, Reload(order));
    RebuildMeaning(After(run).file, order);
    RebuiltAnswers(After(run), Rebuild(After(run).file, order), hash);
  }

  /** A stale entry refuses its hash to every other token, although no stored token has it. */
  lemma StaleHashIsRefused(run: seq<Op>, token: Token, flushed: bool)
    requires Stale(After(run), token.hash) && token.hash != "" && After(run).index[token.hash] != token.id
    ensures After(run + [Save(token, flushed)]) == After(run)
    ensures forall id :: id in After(run).tokens ==> After(run).tokens[id].hash != token.hash
  {
    InvariantHolds(run);
    AfterSnoc(run, Save(token, flushed));
  }

  /** Stale entries do arise: a token saved twice under two hashes leaves one. */
  lemma SavingAgainLeavesAStaleEntry(run: seq<Op>, token: Token, hash: string)
    requires !Conflicts(After(run), token) && token.hash != hash
    requires hash !in After(run).index
    ensures Stale(After(run + [Save(token, true), Save(token.(hash := hash), true)]), token.hash)
  {
    AfterSnoc(run, Save(token, true));
    AfterSnoc(run + [Save(token, true)], Save(token.(hash := hash), true));
    assert run + [Save(token, true)] + [Save(token.(hash := hash), true)]
           == run + [Save(token, true), Save(token.(hash := hash), true)];
  }

  /** What could not be written is known until the next reload and then forgotten. */
  lemma FailedFlushIsForgotten(run: seq<Op>, token: Token, order: seq<string>)
    requires Walks(order, After(run).file)
    ensures After(run + [Save(token, false), Reload(order)]) == After(run + [Reload(order)])
  {
    AfterSnoc(run, Save(token, false));
    AfterSnoc(run, Reload(order));
    AfterSnoc(run + [Save(token, false)], Reload(order));
    assert run + [Save(token, false)] + [Reload(order)] == run + [Save(token, false), Reload(order)];
  }

  lemma WalkSnoc(order: seq<string>, tokens: Tokens, id: string, token: Token)
    requires Walks(order, tokens) && id !in tokens
    ensures Walks(order + [id], tokens[id := token])
  {
    forall i | 0 <= i < |order| ensures order[i] != id {
      assert order[i] in order;
    }
    assert forall k :: k in order + [id] <==> k in order || k == id;
  }

  lemma RebuildSnoc(tokens: Tokens, order: seq<string>, id: string)
    requires (forall k :: k in order ==> k in tokens) && id in tokens
    ensures forall k :: k in order + [id] ==> k in tokens
    ensures Rebuild(tokens, order + [id])
            == if tokens[id].hash != "" then Rebuild(tokens, order)[tokens[id].hash := id] else Rebuild(tokens, order)
  {
    assert (order + [id])[..|order|] == order;
  }

  lemma AfterSnoc(run: seq<Op>, op: Op)
    ensures After(run + [op]) == Next(After(run), op)
  {
    assert (run + [op])[..|run|] == run;
  }

  // ---- The repository ----

  datatype StoreError = Conflict | NotFound | WriteFailed

  class FileRepository {
    var tokens: Tokens
    var tokenIndex: Index
    var file: Tokens

    constructor ()
      ensures Value() == EMPTY
    {
      tokens, tokenIndex, file := map[], map[], map[];
    }

    function Value(): State
      reads this
    {
      State(tokens, tokenIndex, file)
    }

    /** flushLocked: a copy of the tokens, without the index, replaces the file. */
    method FlushLocked(written: bool) returns (ok: bool)
      modifies this`file
      ensures ok == written && Value() == Flush(old(Value()), written)
    {
      if written {
        file := tokens;
      }
      ok := written;
    }

    method SaveIssuedDeviceToken(token: Token, written: bool) returns (r: Result<Token, StoreError>)
      modifies this
      ensures Value() == Next(old(Value()), Save(token, written))
      ensures r == if Conflicts(old(Value()), token) then Err(Conflict) else if written then Ok(token) else Err(WriteFailed)
    {
      if token.hash in tokenIndex && tokenIndex[token.hash] != token.id {
        return Err(Conflict);
      }
      tokens := tokens[token.id := token];
      tokenIndex := tokenIndex[token.hash := token.id];
      var ok := FlushLocked(written);
      r := if ok then Ok(token) else Err(WriteFailed);
    }

    method FindIssuedDeviceTokenByHash(hash: string) returns (r: Result<Token, StoreError>)
      ensures r == match Find(Value(), hash) case None => Err(NotFound) case Some(token) => Ok(token)
    {
      if hash !in tokenIndex {
        return Err(NotFound);
      }
      var id := tokenIndex[hash];
      if id !in tokens {
        return Err(NotFound);
      }
      r := Ok(tokens[id]);
    }

    method TouchIssuedDeviceToken(id: string, usedAt: int, written: bool) returns (r: Result<Token, StoreError>)
      modifies this
      ensures Value() == Next(old(Value()), Touch(id, usedAt, written))
      ensures r.Ok? <==> id in old(tokens) && written
      ensures r.Ok? ==> r.value == old(tokens)[id].(lastUsedAt := Some(usedAt))
    {
      if id !in tokens {
        return Err(NotFound);
      }
      var token := tokens[id].(lastUsedAt := Some(usedAt));
      tokens := tokens[id := token];
      var ok := FlushLocked(written);
      r := if ok then Ok(token) else Err(WriteFailed);
    }

    method RevokeIssuedDeviceToken(id: string, revokedAt: int, written: bool) returns (r: Result<Token, StoreError>)
      modifies this
      ensures Value() == Next(old(Value()), Revoke(id, revokedAt, written))
      ensures r.Ok? <==> id in old(tokens) && written
      ensures r.Ok? ==> r.value == old(tokens)[id].(revokedAt := Some(revokedAt))
    {
      if id !in tokens {
        return Err(NotFound);
      }
      var token := tokens[id].(revokedAt := Some(revokedAt));
      tokens := tokens[id := token];
      var ok := FlushLocked(written);
      r := if ok then Ok(token) else Err(WriteFailed);
    }

    /** load: a file that cannot be read, or makes no sense, is reported and changes nothing. */
    method Load(readable: bool) returns (ok: bool, ghost order: seq<string>)
      modifies this
      ensures ok == readable
      ensures if ok then Walks(order, old(file)) && Value() == Next(old(Value()), Reload(order))
              else Value() == old(Value())
    {
      ok, order := readable, [];
      if readable {
        tokens, tokenIndex, order := NormalizeTokens(file);
      }
    }
  }

  /** normalizeState: fresh maps, filled while walking the persisted one in an order that nobody controls. */
  method NormalizeTokens(persisted: Tokens) returns (restored: Tokens, index: Index, ghost order: seq<string>)
    ensures restored == persisted && Walks(order, persisted) && index == Rebuild(persisted, order)
  {
    restored, index, order := map[], map[], [];
    var left := persisted.Keys;
    while left != {}
      invariant left <= persisted.Keys && restored.Keys == persisted.Keys - left
      invariant forall id :: id in restored ==> restored[id] == persisted[id]
      invariant Walks(order, restored)
      invariant index == Rebuild(persisted, order)
      decreases |left|
    {
      var id :| id in left;
      RebuildSnoc(persisted, order, id);
      WalkSnoc(order, restored, id, persisted[id]);
      restored := restored[id := persisted[id]];
      if persisted[id].hash != "" {
        index := index[persisted[id].hash := id];
      }
      order := order + [id];
      left := left - {id};
    }
    assert restored == persisted;
  }
}
