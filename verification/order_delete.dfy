/** `DELETE /orders/:id`: an unconditional delete by id. */
module OrderDelete {
  import opened Orders

  /** Removes the order `id` if there is one. There is no existence check and
      no error: deleting an unknown id succeeds and changes nothing. */
  function DeleteOrder(s: OrderStore, id: int): (s': OrderStore)
    ensures id !in s'.rows
    ensures forall k :: k in s.rows && k != id ==> k in s'.rows && s'.rows[k] == s.rows[k]
    ensures forall k :: k in s'.rows ==> k in s.rows
    ensures s'.nextId == s.nextId && s'.clock == s.clock
    ensures id !in s.rows ==> s' == s
  {
    s.(rows := s.rows - {id})
  }

  /** Deleting twice is deleting once. */
  lemma DeleteIdempotent(s: OrderStore, id: int)
    ensures DeleteOrder(DeleteOrder(s, id), id) == DeleteOrder(s, id)
  {
  }

  /** Deleting keeps the table well formed and every stored total consistent. */
  lemma DeletePreservesInvariants(s: OrderStore, id: int)
    requires WellFormed(s) && TotalsConsistent(s)
    ensures WellFormed(DeleteOrder(s, id)) && TotalsConsistent(DeleteOrder(s, id))
  {
  }
}
