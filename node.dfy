/**
 * The node record (TStiffNode.py): coordinates and the list of global
 * equation indices, overwritten slot by slot by the numbering passes.
 * The support classification and the hinge flag are read by the analysis
 * (TStiffAnalysis.py) and are part of the node here.
 */
module StiffNode {

  /** The five support classifications the numbering tables know. */
  datatype Support = Free | RollerX | RollerY | Pinned | Fixed

  class Node {
    var coordinates: seq<real>
    /** One global equation index per slot: Tx, Ty, Rz, and a hinge rotation slot when hinged. */
    var dof: array<int>
    const supportType: Support
    const hinge: bool

    /** Keeps the given DoF list itself (not a copy), as the record does. */
    constructor (coordinates: seq<real>, dof: array<int>, supportType: Support, hinge: bool)
      ensures this.coordinates == coordinates && this.dof == dof
      ensures this.supportType == supportType && this.hinge == hinge
    {
      this.coordinates := coordinates;
      this.dof := dof;
      this.supportType := supportType;
      this.hinge := hinge;
    }

    /** The `coordinates` setter. */
    method SetCoordinates(coordinates: seq<real>)
      modifies this
      ensures this.coordinates == coordinates && dof == old(dof)
    {
      this.coordinates := coordinates;
    }

    /** The `DoF` setter. */
    method SetDoF(dof: array<int>)
      modifies this
      ensures this.dof == dof && coordinates == old(coordinates)
    {
      this.dof := dof;
    }
  }
}
