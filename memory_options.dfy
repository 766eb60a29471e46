/** The adapter-specific option of the memory adapter (src/MemoryOptions.php). The
    namespace, ttl and memory limit it inherits from the generic adapter options are not
    part of this class here; MemorySpec.Config carries them. */
module MemoryOptionsConfig {
  import opened Wrappers

  /** The value of `maxItems` that means "no limit on the number of items". */
  const UNLIMITED_ITEMS: nat := 0

  class MemoryOptions {
    /** The PHP property is documented as a non-negative int; the type `nat` makes the
        setter's guard necessary for the assignment to type-check. */
    var maxItems: nat

    constructor ()
      ensures maxItems == UNLIMITED_ITEMS
    {
      maxItems := UNLIMITED_ITEMS;
    }

    /** Rejects a negative count before assigning, so a rejected call leaves the option
        as it was; otherwise stores the count and returns the options object itself. */
    method SetMaxItems(n: int) returns (r: Result<MemoryOptions>)
      modifies this
      ensures n < 0 ==> r.Failure? && r.error.InvalidArgument? && maxItems == old(maxItems)
      ensures 0 <= n ==> r == Success(this) && maxItems == n
    {
      if n < 0 {
        return Failure(InvalidArgument("Provided `maxItems` option must be greater than or equal to 0"));
      }
      maxItems := n;
      return Success(this);
    }

    function GetMaxItems(): (n: nat)
      reads this
      ensures n == maxItems
    {
      maxItems
    }
  }

  /** A freshly built options object reports the unlimited default, and after a
      non-negative SetMaxItems(n) it reports n. */
  method SetThenGetMaxItems(n: nat) returns (before: nat, after: nat)
    ensures before == UNLIMITED_ITEMS && after == n
  {
    var options := new MemoryOptions();
    before := options.GetMaxItems();
    var r := options.SetMaxItems(n);
    after := options.GetMaxItems();
  }
}
