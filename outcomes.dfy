/** Results shared by the scene primitives and the rig operations. */
module Outcomes {

  datatype Option<+T> = None | Some(value: T)

  /** Why a Maya command or a Python built-in raises instead of returning. */
  datatype Fault =
    | NoSuchNode        // a command names a node the scene does not hold
    | NoSuchAttribute   // a plug names an attribute its node does not have
    | NotMulti          // an element index on an attribute that is not an array
    | SlotTaken         // connectAttr without force onto a plug that already has an input
    | NotConnected      // disconnectAttr of two plugs that are not connected
    | EmptyListing      // `[0]` of the None that listConnections returns when nothing is connected
    | NotInList         // list.index of an item the list does not hold
    | NoneNotIterable   // `in` or a for-loop over the None that listAttr returns when it finds nothing
    | NotASide          // ['centre', 'left', 'right'].index of any other string
    | NotMeta           // a scene node without a meta network where the old schema needs one
    | OutOfRange        // a list index outside the list, negative indices counting from the end
    | InitReturned      // __init__ returning a value, which Python refuses with a TypeError
    | AttributeExists   // addAttr of a name the node already has
    | NotAnIndex        // a list indexed by something that is not an integer
    | NotAList          // a list concatenated with the error string a query returned instead of a list
    | NotAString        // `None in s` for a string s, which Python refuses with a TypeError
    | NotAMessage       // connectAttr of a message plug into an attribute of another type

  datatype Result<+T> = Ok(value: T) | Fail(fault: Fault)

  /** Which error message a rig operation returned. */
  datatype Reason =
    | NoNodes           // a node argument is missing
    | NoNames           // an attribute name argument is missing
    | NoSystemName      // addSystem without a name
    | SystemExists      // addSystem with a name already in `systems`
    | UnknownSystem     // addRigNode into a system not in `systems`
    | RigNodeExists     // addRigNode with a name already used in the system
    | AlreadyInRig      // addRigNode of a node already connected to the rig
    | IsDescendant      // parentConnect onto a parent that is a meta descendant of the child
    | SelfParent        // the corrected parentConnect onto the child itself

  /** What a Python function that answers a query ends with: a value, one of its
      error strings, or an exception. */
  datatype Reply<+T> = Answer(value: T) | Declined(reason: Reason) | Threw(fault: Fault)

  /** What a state-changing Python function ends with. */
  datatype Status = Done | Refused(reason: Reason) | Raised(fault: Fault)
}
