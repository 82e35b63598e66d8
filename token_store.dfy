/** The session token kept by the front end: a value in browser storage
    under the key `token`, mirrored by the state atom the pages read. */
module TokenStore {

  /** The storage key the token lives under. */
  const TokenKey: string := "token"

  /** The stored entries and the atom's value. */
  datatype Store = Store(storage: map<string, string>, token: string)

  /** The two actions the pages dispatch. */
  datatype TokenOp = SetToken(newToken: string) | ClearToken

  /** The value stored under the key, `''` when there is none. */
  function StoredToken(storage: map<string, string>): string {
    if TokenKey in storage then storage[TokenKey] else ""
  }

  /** The atom agrees with storage. */
  predicate Consistent(s: Store) {
    s.token == StoredToken(s.storage)
  }

  /** Start-up: the atom starts from `getItem('token') || ''`. */
  function Initial(storage: map<string, string>): (s: Store)
    ensures s.storage == storage && Consistent(s)
  {
    Store(storage, StoredToken(storage))
  }

  /** One action: `setItem` and set, or `removeItem` and set `''`. */
  function Apply(s: Store, op: TokenOp): Store {
    match op
    case SetToken(t) => Store(s.storage[TokenKey := t], t)
    case ClearToken => Store(s.storage - {TokenKey}, "")
  }

  /** A sequence of actions, first to last. */
  function Run(s: Store, ops: seq<TokenOp>): Store
    decreases |ops|
  {
    if ops == [] then s else Run(Apply(s, ops[0]), ops[1..])
  }

  /** What the atom holds after the action `op`. */
  function TokenAfter(op: TokenOp): string {
    match op
    case SetToken(t) => t
    case ClearToken => ""
  }

  /** Each action keeps the atom and storage in agreement and touches no
      other key. */
  lemma ApplyKeepsConsistent(s: Store, op: TokenOp)
    requires Consistent(s)
    ensures Consistent(Apply(s, op))
    ensures Apply(s, op).token == TokenAfter(op)
    ensures forall k :: k != TokenKey ==>
              (k in Apply(s, op).storage <==> k in s.storage) &&
              (k in s.storage ==> Apply(s, op).storage[k] == s.storage[k])
  {
  }

  /** Any run from a consistent state ends consistent. */
  lemma {:induction false} RunKeepsConsistent(s: Store, ops: seq<TokenOp>)
    requires Consistent(s)
    ensures Consistent(Run(s, ops))
    decreases |ops|
  {
    if ops != [] {
      ApplyKeepsConsistent(s, ops[0]);
      RunKeepsConsistent(Apply(s, ops[0]), ops[1..]);
    }
  }

  /** A run leaves every other stored key as it was. */
  lemma {:induction false} RunKeepsOtherKeys(s: Store, ops: seq<TokenOp>, k: string)
    requires k != TokenKey
    ensures k in Run(s, ops).storage <==> k in s.storage
    ensures k in s.storage ==> Run(s, ops).storage[k] == s.storage[k]
    decreases |ops|
  {
    if ops != [] {
      RunKeepsOtherKeys(Apply(s, ops[0]), ops[1..], k);
    }
  }

  /** The last action decides the token: the token set last, or `''`
      after a clear. */
  lemma {:induction false} LastActionWins(s: Store, ops: seq<TokenOp>)
    requires ops != []
    ensures Run(s, ops).token == TokenAfter(ops[|ops| - 1])
    ensures StoredToken(Run(s, ops).storage) == TokenAfter(ops[|ops| - 1])
    decreases |ops|
  {
    if |ops| == 1 {
      assert Run(Apply(s, ops[0]), ops[1..]) == Apply(s, ops[0]);
    } else {
      LastActionWins(Apply(s, ops[0]), ops[1..]);
    }
  }

  /** A run reloaded from storage gives back the same atom: a page reload
      after any actions restores the session. */
  lemma ReloadRestores(storage: map<string, string>, ops: seq<TokenOp>)
    ensures Initial(Run(Initial(storage), ops).storage) == Run(Initial(storage), ops)
  {
    RunKeepsConsistent(Initial(storage), ops);
  }

  /** The atom and the storage it mirrors. */
  class TokenState {
    var storage: map<string, string>
    var token: string

    function Snapshot(): Store
      reads this
    {
      Store(storage, token)
    }

    /** Module load: read the stored token once. */
    constructor(initial: map<string, string>)
      ensures Snapshot() == Initial(initial)
    {
      storage := initial;
      token := StoredToken(initial);
    }

    /** `setTokenAtom`. */
    method SetToken(newToken: string)
      modifies this
      ensures Snapshot() == Apply(old(Snapshot()), TokenOp.SetToken(newToken))
      ensures old(Consistent(Snapshot())) ==> Consistent(Snapshot())
    {
      storage := storage[TokenKey := newToken];
      token := newToken;
    }

    /** `clearTokenAtom`. */
    method ClearToken()
      modifies this
      ensures Snapshot() == Apply(old(Snapshot()), TokenOp.ClearToken)
      ensures token == "" && TokenKey !in storage
    {
      storage := storage - {TokenKey};
      token := "";
    }
  }
}
