/** A connection between two LinStor nodes (NodeConnection): its endpoints in
    canonical name order, the guarded getters, the idempotent delete, and the
    ordering between connections. */
module NodeConnections {
  import opened Wrappers
  import opened Access
  import JavaText

  /** Key of the properties container of a node connection; how
      PropsContainer.buildPath renders it is not part of this model. */
  datatype PropsPath = NodeConnPath(sourceName: string, targetName: string)

  /** The properties container as getProps hands it out: access to it is
      decided by both endpoints' protections (PropsAccess.secureGetProps is
      not part of this model). */
  datatype GuardedProps = GuardedProps(path: PropsPath, sourceProt: ObjectProtection, targetProt: ObjectProtection)

  datatype ConnError = AccessToDeletedData | Denied(error: AccessError)

  /** The part of a LinStor node the connection uses: its name (the value of
      its NodeName), its protection and its connections keyed by the name of
      the other node. Node.java is not part of this model. */
  class Node {
    const name: string
    const objProt: ObjectProtection
    var nodeConnections: map<string, NodeConnection>

    constructor (nodeName: string, prot: ObjectProtection)
      ensures name == nodeName && objProt == prot && nodeConnections == map[]
    {
      name := nodeName;
      objProt := prot;
      nodeConnections := map[];
    }

    /** Drop the connection to the given other node. */
    method RemoveNodeConnection(otherName: string)
      modifies this`nodeConnections
      ensures nodeConnections == old(nodeConnections) - {otherName}
    {
      nodeConnections := nodeConnections - {otherName};
    }
  }

  /** The name comparison of the constructor and of get: node1 comes first
      iff its name compares below node2's. */
  function Ordered(node1: Node, node2: Node): (p: (Node, Node))
    ensures (p.0 == node1 && p.1 == node2) || (p.0 == node2 && p.1 == node1)
    ensures JavaText.CompareTo(p.0.name, p.1.name) <= 0
    ensures p.0.name != p.1.name ==> JavaText.CompareTo(p.0.name, p.1.name) < 0
  {
    JavaText.CompareToAntisymmetric(node1.name, node2.name);
    JavaText.CompareToZeroIffEqual(node1.name, node2.name);
    if JavaText.CompareTo(node1.name, node2.name) < 0 then (node1, node2) else (node2, node1)
  }

  /** For nodes with different names the order of the arguments does not
      matter: get(a, b) and get(b, a) look in the same place. */
  lemma OrderedSymmetric(node1: Node, node2: Node)
    requires node1.name != node2.name
    ensures Ordered(node1, node2) == Ordered(node2, node1)
  {
    JavaText.CompareToAntisymmetric(node1.name, node2.name);
    JavaText.CompareToZeroIffEqual(node1.name, node2.name);
  }

  /** NodeConnection.get: the connection the lower-named node keeps for the
      other one. The lookup goes through the source node's
      getNodeConnection, whose VIEW check on that node's protection is
      assumed here (Node.java is not part of this model). */
  function Get(ctx: AccessContext, node1: Node, node2: Node): (r: Result<Option<NodeConnection>, AccessError>)
    reads Ordered(node1, node2).0
    ensures r.Success? <==> Permits(Ordered(node1, node2).0.objProt, ctx, VIEW)
    ensures r.Success? ==>
      (r.value.Some? <==> Ordered(node1, node2).1.name in Ordered(node1, node2).0.nodeConnections)
    ensures r.Success? && r.value.Some? ==>
      r.value.value == Ordered(node1, node2).0.nodeConnections[Ordered(node1, node2).1.name]
  {
    var (source, target) := Ordered(node1, node2);
    if !Permits(source.objProt, ctx, VIEW) then Failure(AccessDenied)
    else if target.name in source.nodeConnections then Success(Some(source.nodeConnections[target.name]))
    else Success(None)
  }

  /** get(a, b) and get(b, a) give the same answer for nodes with different
      names: the same connection, or the same denial. */
  lemma GetSymmetric(ctx: AccessContext, node1: Node, node2: Node)
    requires node1.name != node2.name
    ensures Get(ctx, node1, node2) == Get(ctx, node2, node1)
  {
    OrderedSymmetric(node1, node2);
  }

  /** compareTo as written: the other connection's source name is joined with
      this connection's target name. */
  function CompareKeysAsWritten(thisSource: string, thisTarget: string, otherSource: string, otherTarget: string): int {
    JavaText.CompareTo(thisSource + thisTarget, otherSource + thisTarget)
  }

  /** The as-written comparison is not antisymmetric: for the canonical
      connections (a, c) and (ab, ac) each compares above the other. */
  lemma CompareAsWrittenNotAntisymmetric()
    ensures JavaText.CompareTo("a", "c") < 0 && JavaText.CompareTo("ab", "ac") < 0
    ensures CompareKeysAsWritten("a", "c", "ab", "ac") > 0
    ensures CompareKeysAsWritten("ab", "ac", "a", "c") > 0
  {
    assert "a" + "c" == "ac" && "ab" + "c" == "abc";
    assert "ab" + "ac" == "abac" && "a" + "ac" == "aac";
    assert JavaText.CompareTo("ac", "abc") == JavaText.CompareTo("c", "bc");
    assert JavaText.CompareTo("abac", "aac") == JavaText.CompareTo("bac", "ac");
  }

  /** compareTo as intended: both sides join their own source and target. */
  function CompareKeys(thisSource: string, thisTarget: string, otherSource: string, otherTarget: string): int {
    JavaText.CompareTo(thisSource + thisTarget, otherSource + otherTarget)
  }

  /** The corrected comparison is antisymmetric and zero on equal endpoints. */
  lemma CompareKeysAntisymmetric(xs: string, xt: string, ys: string, yt: string)
    ensures CompareKeys(ys, yt, xs, xt) == -CompareKeys(xs, xt, ys, yt)
    ensures CompareKeys(xs, xt, xs, xt) == 0
  {
    JavaText.CompareToAntisymmetric(xs + xt, ys + yt);
    JavaText.CompareToZeroIffEqual(xs + xt, xs + xt);
  }

  class NodeConnection {
    const objId: nat
    const sourceNode: Node
    const targetNode: Node
    const propsPath: PropsPath
    /** props.delete() was issued. */
    var propsDeleted: bool
    /** dbDriver.delete(this) was issued. */
    var dbDeleted: bool
    var deleted: bool

    /** The constructor puts the node whose name compares lower first. */
    constructor (uuid: nat, node1: Node, node2: Node)
      ensures objId == uuid
      ensures (sourceNode, targetNode) == Ordered(node1, node2)
      ensures propsPath == NodeConnPath(sourceNode.name, targetNode.name)
      ensures !deleted && !propsDeleted && !dbDeleted
    {
      objId := uuid;
      var (source, target) := Ordered(node1, node2);
      sourceNode := source;
      targetNode := target;
      propsPath := NodeConnPath(source.name, target.name);
      deleted := false;
      propsDeleted := false;
      dbDeleted := false;
    }

    /** checkDeleted: every guarded getter fails once the connection is
        deleted. */
    function GetUuid(): (r: Result<nat, ConnError>)
      reads this
      ensures r.Failure? <==> deleted
      ensures r.Failure? ==> r.error == AccessToDeletedData
      ensures r.Success? ==> r.value == objId
    {
      if deleted then Failure(AccessToDeletedData) else Success(objId)
    }

    function GetSourceNode(ctx: AccessContext): (r: Result<Node, ConnError>)
      reads this
      ensures deleted ==> r == Failure(AccessToDeletedData)
      ensures !deleted ==> (r.Success? <==> Permits(sourceNode.objProt, ctx, VIEW))
      ensures r.Success? ==> r.value == sourceNode
    {
      if deleted then Failure(AccessToDeletedData)
      else if !Permits(sourceNode.objProt, ctx, VIEW) then Failure(Denied(AccessDenied))
      else Success(sourceNode)
    }

    /** The target node is guarded by the SOURCE node's protection. */
    function GetTargetNode(ctx: AccessContext): (r: Result<Node, ConnError>)
      reads this
      ensures deleted ==> r == Failure(AccessToDeletedData)
      ensures !deleted ==> (r.Success? <==> Permits(sourceNode.objProt, ctx, VIEW))
      ensures r.Success? ==> r.value == targetNode
    {
      if deleted then Failure(AccessToDeletedData)
      else if !Permits(sourceNode.objProt, ctx, VIEW) then Failure(Denied(AccessDenied))
      else Success(targetNode)
    }

    function GetProps(): (r: Result<GuardedProps, ConnError>)
      reads this
      ensures r.Failure? <==> deleted
      ensures r.Success? ==> r.value.path == propsPath
      ensures r.Success? ==> r.value.sourceProt == sourceNode.objProt && r.value.targetProt == targetNode.objProt
    {
      if deleted then Failure(AccessToDeletedData)
      else Success(GuardedProps(propsPath, sourceNode.objProt, targetNode.objProt))
    }

    /** delete: a second delete does nothing; otherwise CHANGE access on both
        nodes is checked before anything changes, then the connection leaves
        both nodes, its props and its database record are deleted and it is
        marked deleted. */
    method Delete(ctx: AccessContext) returns (r: Outcome<AccessError>)
      modifies this, sourceNode, targetNode
      ensures old(deleted) ==> r.Pass? && unchanged(this, sourceNode, targetNode)
      ensures !old(deleted) ==> (r.Pass? <==> Permits(sourceNode.objProt, ctx, CHANGE) && Permits(targetNode.objProt, ctx, CHANGE))
      ensures r.Fail? ==> unchanged(this, sourceNode, targetNode)
      ensures !old(deleted) && r.Pass? ==> deleted && propsDeleted && dbDeleted
      ensures !old(deleted) && r.Pass? && sourceNode != targetNode ==>
        sourceNode.nodeConnections == old(sourceNode.nodeConnections) - {targetNode.name} &&
        targetNode.nodeConnections == old(targetNode.nodeConnections) - {sourceNode.name}
    {
      if !deleted {
        if !Permits(sourceNode.objProt, ctx, CHANGE) || !Permits(targetNode.objProt, ctx, CHANGE) {
          return Fail(AccessDenied);
        }
        sourceNode.RemoveNodeConnection(targetNode.name);
        targetNode.RemoveNodeConnection(sourceNode.name);
        propsDeleted := true;
        dbDeleted := true;
        deleted := true;
      }
      r := Pass;
    }

    /** compareTo, with the other connection's own target on its side. */
    function CompareTo(other: NodeConnection): (r: int)
      ensures r == -CompareKeys(other.sourceNode.name, other.targetNode.name, sourceNode.name, targetNode.name)
      ensures r == 0 <==> sourceNode.name + targetNode.name == other.sourceNode.name + other.targetNode.name
    {
      CompareKeysAntisymmetric(sourceNode.name, targetNode.name, other.sourceNode.name, other.targetNode.name);
      JavaText.CompareToZeroIffEqual(sourceNode.name + targetNode.name, other.sourceNode.name + other.targetNode.name);
      CompareKeys(sourceNode.name, targetNode.name, other.sourceNode.name, other.targetNode.name)
    }
  }
}
