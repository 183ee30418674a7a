/** The parsed Mach-O records that the loader and the linker pass around. */
module MachO {
  import opened Memory

  datatype Option<+T> = None | Some(value: T)

  datatype Segment = Segment(name: string, vmaddr: nat, vmsize: nat, fileoff: nat, filesize: nat)

  datatype Binary = Binary(
    path: string,
    entryPoint: nat,
    entryIsOffset: bool,
    segments: seq<Segment>,
    dylibDeps: seq<string>,
    rpaths: seq<string>,
    chainedFixups: Option<(nat, nat)>,
    data: seq<Byte>,
    slide: nat)

  const PAGEZERO := "__PAGEZERO"
  const TEXT := "__TEXT"

  /** The first segment named `name`, as an index; `|segments|` when there is none. */
  function FindSegment(segments: seq<Segment>, name: string): (i: nat)
    ensures i <= |segments|
    ensures i < |segments| ==> segments[i].name == name
    ensures forall k :: 0 <= k < i ==> segments[k].name != name
  {
    if segments == [] || segments[0].name == name then 0
    else
      var i := FindSegment(segments[1..], name);
      assert forall k :: 1 <= k < 1 + i ==> segments[k] == segments[1..][k - 1];
      1 + i
  }

  /** Two address ranges share no byte. */
  predicate SegmentsDisjoint(segments: seq<Segment>) {
    forall i, k :: 0 <= i < k < |segments| && segments[i].name != PAGEZERO && segments[k].name != PAGEZERO ==>
      Disjoint(segments[i].vmaddr, segments[i].vmsize, segments[k].vmaddr, segments[k].vmsize)
  }
}
