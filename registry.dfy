/**
 * The hub's registry of live validators (`availableValidators`): an ordered list of
 * entries, appended at signup and spliced at disconnect. The functions here are the
 * specification of those two updates; the hub's methods are proved against them.
 */
module Registry {
  import opened Wrappers
  import opened Protocol
  import opened FreshIds

  datatype Entry = Entry(validatorId: Id, socket: Socket, publicKey: PublicKey)

  /** `findIndex(v => v.socket === ws)`, with `None` for -1. */
  function FindSocket(reg: seq<Entry>, ws: Socket): (r: Option<nat>)
    ensures r.Some? ==> r.value < |reg| && reg[r.value].socket == ws
    ensures r.Some? ==> forall k :: 0 <= k < r.value ==> reg[k].socket != ws
    ensures r.None? ==> forall k :: 0 <= k < |reg| ==> reg[k].socket != ws
  {
    if reg == [] then None
    else if reg[0].socket == ws then Some(0)
    else match FindSocket(reg[1..], ws)
      case None => None
      case Some(i) => Some(i + 1)
  }

  /** The registry after the socket `ws` closes: its first entry is spliced out. */
  function Unregister(reg: seq<Entry>, ws: Socket): (r: seq<Entry>)
    ensures FindSocket(reg, ws).None? ==> r == reg
    ensures FindSocket(reg, ws).Some? ==>
      |r| == |reg| - 1 && multiset(r) + multiset{reg[FindSocket(reg, ws).value]} == multiset(reg)
  {
    match FindSocket(reg, ws)
    case None => reg
    case Some(i) =>
      assert reg == reg[..i] + [reg[i]] + reg[i + 1..];
      reg[..i] + reg[i + 1..]
  }

  /** The number of entries registered for `ws`. */
  function CountSocket(reg: seq<Entry>, ws: Socket): nat {
    if reg == [] then 0 else (if reg[0].socket == ws then 1 else 0) + CountSocket(reg[1..], ws)
  }

  /** The entries of every other connection, in registry order. */
  function Others(reg: seq<Entry>, ws: Socket): seq<Entry> {
    if reg == [] then []
    else (if reg[0].socket == ws then [] else [reg[0]]) + Others(reg[1..], ws)
  }

  /** How `Unregister` unfolds on the head of the registry. */
  lemma UnregisterCons(reg: seq<Entry>, ws: Socket)
    requires reg != []
    ensures reg[0].socket == ws ==> Unregister(reg, ws) == reg[1..]
    ensures reg[0].socket != ws ==> Unregister(reg, ws) == [reg[0]] + Unregister(reg[1..], ws)
  {
    if reg[0].socket != ws {
      match FindSocket(reg[1..], ws)
      case None =>
      case Some(i) =>
        assert reg[..i + 1] == [reg[0]] + reg[1..][..i];
        assert reg[i + 2..] == reg[1..][i + 1..];
    }
  }

  /** A disconnect removes exactly one entry of the closed socket when it has any. */
  lemma {:induction false} UnregisterRemovesOne(reg: seq<Entry>, ws: Socket)
    ensures CountSocket(Unregister(reg, ws), ws) ==
            if CountSocket(reg, ws) == 0 then 0 else CountSocket(reg, ws) - 1
    ensures FindSocket(reg, ws).Some? <==> CountSocket(reg, ws) > 0
  {
    if reg != [] && reg[0].socket != ws {
      UnregisterRemovesOne(reg[1..], ws);
      UnregisterCons(reg, ws);
    } else if reg != [] {
      UnregisterCons(reg, ws);
    }
  }

  /** A disconnect keeps the entries of every other connection, in the same order. */
  lemma {:induction false} UnregisterKeepsOthers(reg: seq<Entry>, ws: Socket)
    ensures Others(Unregister(reg, ws), ws) == Others(reg, ws)
  {
    if reg != [] && reg[0].socket != ws {
      UnregisterKeepsOthers(reg[1..], ws);
      UnregisterCons(reg, ws);
    } else if reg != [] {
      UnregisterCons(reg, ws);
    }
  }

  /** Registering a new connection and then closing it restores the registry. */
  lemma {:induction false} UnregisterUndoesRegister(reg: seq<Entry>, e: Entry)
    requires CountSocket(reg, e.socket) == 0
    ensures Unregister(reg + [e], e.socket) == reg
  {
    if reg == [] {
      assert [] + [e] == [e];
    } else {
      assert (reg + [e])[1..] == reg[1..] + [e];
      UnregisterUndoesRegister(reg[1..], e);
      UnregisterCons(reg + [e], e.socket);
    }
  }
}
