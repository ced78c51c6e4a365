/**
 * The base class of stateful feature functions,
 * `joshua.decoder.ff.DefaultStatefulFF`: a weight and a feature ID with
 * accessors, `isStateful()` fixed to true, and edge-aware transitions that
 * ignore the hyperedge and forward to the edge-free transitions a concrete
 * feature function supplies. The concrete feature function's edge-free
 * transitions are given to the constructor as functions.
 */
module Features {

  class DefaultStatefulFF<Edge, Rule, DPState, TransitionResult> {
    var weight: real
    var featureID: int
    /** The concrete feature function's `transition(rule, previousStates, spanStart, spanEnd)`. */
    const edgeFreeTransition: (Rule, seq<DPState>, int, int) -> TransitionResult
    /** The concrete feature function's `finalTransition(state)`. */
    const edgeFreeFinalTransition: DPState -> real

    /** Stores the given weight and feature ID. */
    constructor (weight: real, id: int,
                 transition: (Rule, seq<DPState>, int, int) -> TransitionResult,
                 finalTransition: DPState -> real)
      ensures GetWeight() == weight && GetFeatureID() == id
      ensures edgeFreeTransition == transition && edgeFreeFinalTransition == finalTransition
    {
      this.weight := weight;
      featureID := id;
      edgeFreeTransition := transition;
      edgeFreeFinalTransition := finalTransition;
    }

    /** Every feature function derived from this class is stateful. */
    function IsStateful(): (r: bool)
      ensures r
    {
      true
    }

    function GetWeight(): real
      reads this
    {
      weight
    }

    /** Replaces the weight; the feature ID is kept. */
    method SetWeight(weight: real)
      modifies this`weight
      ensures GetWeight() == weight
      ensures GetFeatureID() == old(GetFeatureID())
    {
      this.weight := weight;
    }

    function GetFeatureID(): int
      reads this
    {
      featureID
    }

    /** Replaces the feature ID; the weight is kept. */
    method SetFeatureID(id: int)
      modifies this`featureID
      ensures GetFeatureID() == id
      ensures GetWeight() == old(GetWeight())
    {
      featureID := id;
    }

    /** The default edge-aware transition: the edge is ignored. */
    function Transition(edge: Edge, rule: Rule, previousStates: seq<DPState>, spanStart: int, spanEnd: int): TransitionResult {
      edgeFreeTransition(rule, previousStates, spanStart, spanEnd)
    }

    /** The default edge-aware final transition: the edge is ignored. */
    function FinalTransition(edge: Edge, state: DPState): real {
      edgeFreeFinalTransition(state)
    }
  }

  /**
   * The default transitions agree with the edge-free ones for every edge, so
   * two calls that differ only in the edge give the same result.
   */
  lemma TransitionIgnoresEdge<Edge, Rule, DPState, TransitionResult>(
    ff: DefaultStatefulFF<Edge, Rule, DPState, TransitionResult>,
    e1: Edge, e2: Edge, rule: Rule, previousStates: seq<DPState>, spanStart: int, spanEnd: int, state: DPState)
    ensures ff.Transition(e1, rule, previousStates, spanStart, spanEnd)
         == ff.Transition(e2, rule, previousStates, spanStart, spanEnd)
         == ff.edgeFreeTransition(rule, previousStates, spanStart, spanEnd)
    ensures ff.FinalTransition(e1, state) == ff.FinalTransition(e2, state) == ff.edgeFreeFinalTransition(state)
  {
  }
}
