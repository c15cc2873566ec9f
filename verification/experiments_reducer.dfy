/** The experiments reducer of `src/amo/reducers/experiments.js`: a map from
    experiment id to variant, written by one action. The variant type is a
    parameter, since the reducer never looks inside it. */
module ExperimentsReducer {

  const STORE_EXPERIMENT_VARIANT: string := "STORE_EXPERIMENT_VARIANT"

  type ExperimentsState<V> = map<string, V>

  /** `initialState` */
  function InitialState<V>(): (s: ExperimentsState<V>)
    ensures |s| == 0
  {
    map[]
  }

  datatype StoreVariantPayload<V> = StoreVariantPayload(id: string, variant: V)

  /** A store action, or an action of any other type (`type` names it). */
  datatype Action<V> =
    | StoreVariant(payload: StoreVariantPayload<V>)
    | OtherAction(actionType: string)
  {
    function Type(): string {
      match this
      case StoreVariant(_) => STORE_EXPERIMENT_VARIANT
      case OtherAction(t) => t
    }
  }

  /** `storeExperimentVariant({id, variant})` */
  function StoreExperimentVariant<V>(id: string, variant: V): (a: Action<V>)
    ensures a.Type() == STORE_EXPERIMENT_VARIANT
    ensures a.StoreVariant? && a.payload.id == id && a.payload.variant == variant
  {
    StoreVariant(StoreVariantPayload(id, variant))
  }

  /** `experimentsReducer(state, action)`; `OtherAction` stands for every
      action whose type is not `STORE_EXPERIMENT_VARIANT`. */
  function Reduce<V>(state: ExperimentsState<V>, action: Action<V>): (s: ExperimentsState<V>)
    ensures action.StoreVariant? ==> action.payload.id in s && s[action.payload.id] == action.payload.variant
    ensures action.StoreVariant? ==> s.Keys == state.Keys + {action.payload.id}
    ensures action.StoreVariant? ==> forall k :: k in state && k != action.payload.id ==> s[k] == state[k]
    ensures action.OtherAction? ==> s == state
  {
    match action
    case StoreVariant(payload) => state[payload.id := payload.variant]
    case OtherAction(_) => state
  }

  /** Storing twice under one id keeps only the second variant: no history. */
  lemma StoreTwiceKeepsLast<V>(state: ExperimentsState<V>, id: string, first: V, second: V)
    ensures Reduce(Reduce(state, StoreExperimentVariant(id, first)), StoreExperimentVariant(id, second))
            == Reduce(state, StoreExperimentVariant(id, second))
  {
  }

  /** Stores under different ids commute. */
  lemma StoresUnderDistinctIdsCommute<V>(state: ExperimentsState<V>, id1: string, v1: V, id2: string, v2: V)
    requires id1 != id2
    ensures Reduce(Reduce(state, StoreExperimentVariant(id1, v1)), StoreExperimentVariant(id2, v2))
            == Reduce(Reduce(state, StoreExperimentVariant(id2, v2)), StoreExperimentVariant(id1, v1))
  {
  }
}
