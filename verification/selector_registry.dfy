/**
 The selector registrations of the selector server (04), by file descriptor.

 `add_new_client` registers each accepted connection with the selector before
 appending it; `remove_current_client` closes the connection and drops it
 from the list but never unregisters it. The system frees a closed descriptor
 and may hand the same number to the next `accept` (POSIX hands out the
 lowest free one), while the selector still holds the old registration and
 refuses the new one with `KeyError`.

 The descriptor `accept` returns is an input; the only thing assumed of it is
 that it is not open.
 */
module SelectorRegistry {
  import opened Wrappers
  import opened Connections

  type Fd = nat

  /** The descriptors registered with the selector, those open, and the connections list. */
  datatype Table = Table(registered: set<Fd>, open: set<Fd>, connections: seq<Fd>)

  /** `selector.register`: a descriptor already registered is refused with `KeyError`. */
  function Register(registered: set<Fd>, fd: Fd): (r: Result<set<Fd>, PyError>)
    ensures r.Failure? <==> fd in registered
    ensures r.Failure? ==> r.error == KeyError
    ensures r.Success? ==> fd in r.value && r.value - {fd} == registered
  {
    if fd in registered then Failure(KeyError) else Success(registered + {fd})
  }

  /** `selector.unregister`: a descriptor that is not registered is refused with `KeyError`. */
  function Unregister(registered: set<Fd>, fd: Fd): (r: Result<set<Fd>, PyError>)
    ensures r.Failure? <==> fd !in registered
    ensures r.Failure? ==> r.error == KeyError
    ensures r.Success? ==> fd !in r.value && r.value + {fd} == registered
  {
    if fd !in registered then Failure(KeyError) else Success(registered - {fd})
  }

  /** `add_new_client`: `accept` gives `fd`, which is registered, then appended. */
  function AddNewClient(t: Table, fd: Fd): (r: Result<Table, PyError>)
    requires fd !in t.open
    ensures r.Failure? <==> fd in t.registered
    ensures r.Failure? ==> r.error == KeyError
    ensures r.Success? ==> r.value.connections == t.connections + [fd] &&
                           fd in r.value.open && fd in r.value.registered
  {
    match Register(t.registered, fd)
    case Failure(e) => Failure(e)
    case Success(reg) => Success(Table(reg, t.open + {fd}, t.connections + [fd]))
  }

  /** `remove_current_client` as written: close, then `list.remove`; the registration stays. */
  function RemoveAsWritten(t: Table, fd: Fd): (r: Result<Table, PyError>)
    ensures r.Success? <==> fd in t.connections
    ensures r.Failure? ==> r.error == ValueError
    ensures r.Success? ==> fd !in r.value.open && r.value.registered == t.registered
  {
    match Remove(t.connections, fd)
    case Failure(e) => Failure(e)
    case Success(rest) => Success(Table(t.registered, t.open - {fd}, rest))
  }

  /** `remove_current_client` as evidently intended: unregister, close, then `list.remove`. */
  function RemoveIntended(t: Table, fd: Fd): (r: Result<Table, PyError>)
    ensures r.Success? <==> fd in t.registered && fd in t.connections
    ensures r.Success? ==> fd !in r.value.open && fd !in r.value.registered
  {
    match Unregister(t.registered, fd)
    case Failure(e) => Failure(e)
    case Success(reg) =>
      match Remove(t.connections, fd)
      case Failure(e) => Failure(e)
      case Success(rest) => Success(Table(reg, t.open - {fd}, rest))
  }

  /**
   The registrations follow the sockets: every listed connection is listed
   once and registered, and only open descriptors are registered.
   */
  predicate Tracked(t: Table) {
    && Distinct(t.connections)
    && (forall i :: 0 <= i < |t.connections| ==> t.connections[i] in t.registered)
    && t.registered <= t.open
  }

  /** Under the intended registration an accept never fails, and the registrations keep following the sockets. */
  lemma AddKeepsTracked(t: Table, fd: Fd)
    requires Tracked(t) && fd !in t.open
    ensures AddNewClient(t, fd).Success?
    ensures Tracked(AddNewClient(t, fd).value)
  {
  }

  /** The intended removal succeeds for a listed connection and keeps the registrations following the sockets. */
  lemma RemoveIntendedKeepsTracked(t: Table, fd: Fd)
    requires Tracked(t) && fd in t.connections
    ensures RemoveIntended(t, fd).Success?
    ensures Tracked(RemoveIntended(t, fd).value)
  {
    RemoveMembers(t.connections, fd);
    RemoveDistinct(t.connections, fd);
  }

  /**
   As written, a client that hangs up leaves its descriptor registered; when
   `accept` hands the freed number to the next client, `register` raises
   `KeyError` and the server stops.
   */
  lemma AsWrittenReuseFails(t: Table, fd: Fd)
    requires Tracked(t) && fd in t.connections
    ensures RemoveAsWritten(t, fd).Success?
    ensures var t' := RemoveAsWritten(t, fd).value;
      fd !in t'.open && AddNewClient(t', fd) == Failure(KeyError)
  {
  }

  /** With the intended removal, the freed descriptor can be accepted again. */
  lemma IntendedReuseSucceeds(t: Table, fd: Fd)
    requires Tracked(t) && fd in t.connections
    ensures RemoveIntended(t, fd).Success?
    ensures var t' := RemoveIntended(t, fd).value;
      fd !in t'.open && AddNewClient(t', fd).Success? && Tracked(AddNewClient(t', fd).value)
  {
    RemoveIntendedKeepsTracked(t, fd);
    AddKeepsTracked(RemoveIntended(t, fd).value, fd);
  }

  /**
   The selector's own epoll descriptor is 3 (`DefaultSelector()` opens it in
   `__init__`, before `init` creates the socket), the listening socket 4 and
   one client 5: the client hangs up, 5 is the lowest free descriptor again,
   and the next client's `register` fails.
   */
  lemma AsWrittenOneClient()
    ensures var t := Table({4, 5}, {0, 1, 2, 3, 4, 5}, [5]);
      var t' := RemoveAsWritten(t, 5).value;
      t'.open == {0, 1, 2, 3, 4} && AddNewClient(t', 5) == Failure(KeyError)
  {
  }
}
