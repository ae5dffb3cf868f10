/** Encryption at rest: a data key per brain, wrapped under the operator's master key
    in the store and remembered unwrapped in the process. Keys drawn are arguments. */
module AtRest {
  import opened Wrappers
  import opened Aead

  /** A wrapped data key unwraps under the key that wrapped it. */
  datatype Wrapped = Wrapped(master: Key, dek: Key)

  function Unwrap(master: Key, w: Wrapped): Option<Key> {
    if w.master == master then Some(w.dek) else None
  }

  /** What is stored for a row: a sealed blob, or the text as it came when at-rest
      encryption is off. */
  datatype Stored = Plain(text: string) | Cipher(blob: Blob)

  datatype Failure = WrongMasterKey | CannotDecrypt | NoSuchRow

  datatype Id = Id(brain: string, key: string)

  /** The row opens, under its brain's key, to the text that was pushed. */
  predicate Readable(keys: map<string, Wrapped>, id: Id, s: Stored, text: string) {
    match s
    case Plain(t) => t == text
    case Cipher(blob) => id.brain in keys && Open(keys[id.brain].dek, blob) == Some(text)
  }

  /** What a pull of a readable row gives under this master key (None: at-rest is off). */
  function Served(master: Option<Key>, keys: map<string, Wrapped>, id: Id, s: Stored, text: string): Result<Stored, Failure> {
    match master
    case None => Ok(s)
    case Some(m) =>
      if id.brain in keys && keys[id.brain].master != m then Err(WrongMasterKey)
      else if s.Plain? then Err(CannotDecrypt)
      else Ok(Plain(text))
  }

  class Server {
    var masterKey: Option<Key>
    var brainKeys: map<string, Wrapped>
    var dekCache: map<string, Key>
    var rows: map<Id, Stored>
    ghost var pushed: map<Id, string>

    ghost predicate CacheAgrees()
      reads this
    {
      forall b :: b in dekCache ==>
        masterKey.Some? && b in brainKeys && Unwrap(masterKey.value, brainKeys[b]) == Some(dekCache[b])
    }

    ghost predicate AllReadable()
      reads this
    {
      rows.Keys == pushed.Keys && forall id :: id in rows ==> Readable(brainKeys, id, rows[id], pushed[id])
    }

    ghost predicate Valid()
      reads this
    {
      CacheAgrees() && AllReadable()
    }

    constructor (master: Option<Key>)
      ensures Valid() && masterKey == master && rows == map[] && brainKeys == map[] && dekCache == map[]
    {
      masterKey, brainKeys, dekCache, rows, pushed := master, map[], map[], map[], map[];
    }

    ghost predicate NoneSealed(brain: string)
      reads this
    {
      forall id :: id in rows && id.brain == brain ==> rows[id].Plain?
    }

    /** provisionBrainKey: it looks at nothing and overwrites the key that is there. All
        rows stay readable exactly when the brain has no sealed row or the key drawn is
        the one it had. */
    method Provision(brain: string, dek: Key)
      requires Valid()
      modifies this`brainKeys, this`dekCache
      ensures if masterKey.None? then brainKeys == old(brainKeys) && dekCache == old(dekCache)
              else brainKeys == old(brainKeys)[brain := Wrapped(masterKey.value, dek)] && dekCache == old(dekCache)[brain := dek]
      ensures CacheAgrees() && rows.Keys == pushed.Keys
      ensures Valid() <==> masterKey.None? || NoneSealed(brain) || (brain in old(brainKeys) && old(brainKeys)[brain].dek == dek)
    {
      if masterKey.None? {
        return;
      }
      ghost var was := brainKeys;
      brainKeys := brainKeys[brain := Wrapped(masterKey.value, dek)];
      dekCache := dekCache[brain := dek];
      StillReadable(was, rows, pushed, brain, brainKeys[brain]);
    }

    /** brainDEK: None only when at-rest is off. A brain without a key is given one; a
        key wrapped under another master key is an error, never plaintext. */
    method BrainDEK(brain: string, drawn: Key) returns (r: Result<Option<Key>, Failure>)
      requires Valid()
      modifies this`brainKeys, this`dekCache
      ensures Valid()
      ensures masterKey.None? ==> r == Ok(None) && brainKeys == old(brainKeys)
      ensures masterKey.Some? && brain !in old(brainKeys) ==>
                brainKeys == old(brainKeys)[brain := Wrapped(masterKey.value, drawn)] && r == Ok(Some(drawn))
      ensures masterKey.Some? && brain in old(brainKeys) ==>
                brainKeys == old(brainKeys) &&
                r == if brainKeys[brain].master == masterKey.value then Ok(Some(brainKeys[brain].dek)) else Err(WrongMasterKey)
    {
      if masterKey.None? {
        return Ok(None);
      }
      if brain in dekCache {
        return Ok(Some(dekCache[brain]));
      }
      if brain !in brainKeys {
        Provision(brain, drawn);
        return Ok(Some(dekCache[brain]));
      }
      var dek := Unwrap(masterKey.value, brainKeys[brain]);
      if dek.None? {
        return Err(WrongMasterKey);
      }
      dekCache := dekCache[brain := dek.value];
      return Ok(dek);
    }

    method Push(id: Id, text: string, drawn: Key, nonce: nat) returns (r: Result<(), Failure>)
      requires Valid()
      modifies this`brainKeys, this`dekCache, this`rows, this`pushed
      ensures Valid()
      ensures r.Ok? ==> rows.Keys == old(rows).Keys + {id} && pushed == old(pushed)[id := text] &&
                        (masterKey.Some? ==> rows[id].Cipher?) && rows - {id} == old(rows) - {id}
      ensures r.Err? ==> rows == old(rows) && pushed == old(pushed) && r.error == WrongMasterKey
      ensures r.Err? <==> masterKey.Some? && id.brain in old(brainKeys) && old(brainKeys)[id.brain].master != masterKey.value
    {
      var dek := BrainDEK(id.brain, drawn);
      if dek.Err? {
        return Err(dek.error);
      }
      var stored := if dek.value.None? then Plain(text) else Cipher(Seal(dek.value.value, text, nonce));
      rows := rows[id := stored];
      pushed := pushed[id := text];
      return Ok(());
    }

    /** Every row comes back as the text that was pushed, or as an error — never as
        somebody's plaintext under the wrong key. */
    method Pull(id: Id, drawn: Key) returns (r: Result<Stored, Failure>)
      requires Valid()
      modifies this`brainKeys, this`dekCache
      ensures Valid()
      ensures id !in rows ==> r == Err(NoSuchRow)
      ensures id in rows ==> r == Served(masterKey, old(brainKeys), id, rows[id], pushed[id])
      ensures r.Ok? && r.value.Plain? ==> id in rows && r.value.text == pushed[id]
      ensures id in rows && masterKey.None? ==> r == Ok(rows[id])
      ensures id in rows && masterKey.Some? ==>
                && (r.Ok? <==> rows[id].Cipher? && old(brainKeys)[id.brain].master == masterKey.value)
                && (r.Ok? ==> r.value.Plain?)
                && (r == Err(WrongMasterKey) <==> id.brain in old(brainKeys) && old(brainKeys)[id.brain].master != masterKey.value)
    {
      if id !in rows {
        return Err(NoSuchRow);
      }
      var dek := BrainDEK(id.brain, drawn);
      if dek.Err? {
        return Err(dek.error);
      }
      if dek.value.None? {
        return Ok(rows[id]);
      }
      if rows[id].Plain? {
        return Err(CannotDecrypt);
      }
      var text := Open(dek.value.value, rows[id].blob);
      return Ok(Plain(text.value));
    }

    /** The cache dies with the process; the master key may be another one. */
    method Restart(master: Option<Key>)
      requires Valid()
      modifies this`masterKey, this`dekCache
      ensures Valid() && masterKey == master && dekCache == map[]
    {
      masterKey, dekCache := master, map[];
    }
  }

  /** Storing a key for a brain, over another or not: all rows stay readable exactly when
      none of the brain's is sealed, or the key is the one it had. */
  lemma {:induction false} StillReadable(keys: map<string, Wrapped>, rows: map<Id, Stored>, texts: map<Id, string>,
          brain: string, w: Wrapped)
    requires rows.Keys == texts.Keys && forall id :: id in rows ==> Readable(keys, id, rows[id], texts[id])
    ensures (forall id :: id in rows ==> Readable(keys[brain := w], id, rows[id], texts[id])) <==>
            (brain in keys && w.dek == keys[brain].dek) || forall id :: id in rows && id.brain == brain ==> rows[id].Plain?
  {
    forall id | id in rows
      ensures Readable(keys[brain := w], id, rows[id], texts[id]) <==>
              id.brain != brain || rows[id].Plain? || (brain in keys && w.dek == keys[brain].dek)
    {
    }
  }
}
