/** Optional values and endpoint outcomes shared by every module. */
module Wrappers {

  /** A value that may be absent: SQL NULL, a missing dict key, a row `fetchone` did not find. */
  datatype Option<T> = None | Some(value: T) {
    /** The value, or `default` when absent (Python's `d.get(key, default)`). */
    function GetOr(default: T): T {
      match this
      case Some(v) => v
      case None => default
    }
  }

  /** The HTTP failure an endpoint reports. ServerError stands for an uncaught Python exception. */
  datatype Status = BadRequest | NotFound | ServerError {
    function Code(): nat {
      match this
      case BadRequest => 400
      case NotFound => 404
      case ServerError => 500
    }
  }

  /** The outcome of one endpoint call. */
  datatype Result<T> = Ok(value: T) | Err(status: Status)

  /**
    Running steps that may fail one after another: all their values when
    every step succeeds, otherwise the failure of the first step that fails.
  */
  function Collect<T>(rs: seq<Result<T>>): (r: Result<seq<T>>)
    ensures r.Ok? <==> forall i :: 0 <= i < |rs| ==> rs[i].Ok?
    ensures r.Ok? ==> |r.value| == |rs| && forall i :: 0 <= i < |rs| ==> rs[i] == Ok(r.value[i])
    ensures r.Err? ==> exists i :: 0 <= i < |rs| && rs[i] == Err(r.status) && forall j :: 0 <= j < i ==> rs[j].Ok?
  {
    if rs == [] then Ok([])
    else
      var init := rs[..|rs| - 1];
      assert forall i :: 0 <= i < |init| ==> init[i] == rs[i];
      match Collect(init)
      case Err(e) => Err(e)
      case Ok(vs) =>
        match rs[|rs| - 1]
        case Err(e) => Err(e)
        case Ok(v) => Ok(vs + [v])
  }

  /** One more successful step extends the collected values. */
  lemma CollectOk<T>(rs: seq<Result<T>>, k: nat, vs: seq<T>, v: T)
    requires k < |rs| && Collect(rs[..k]) == Ok(vs) && rs[k] == Ok(v)
    ensures Collect(rs[..k + 1]) == Ok(vs + [v])
  {
    assert rs[..k + 1][..k] == rs[..k];
  }

  /** The first failing step is the failure of the whole run. */
  lemma CollectErr<T>(rs: seq<Result<T>>, k: nat, vs: seq<T>, e: Status)
    requires k < |rs| && Collect(rs[..k]) == Ok(vs) && rs[k] == Err(e)
    ensures Collect(rs) == Err(e)
  {
    assert forall j :: 0 <= j < k ==> rs[j] == rs[..k][j];
    var r := Collect(rs);
    var i :| 0 <= i < |rs| && rs[i] == Err(r.status) && forall j :: 0 <= j < i ==> rs[j].Ok?;
    assert i == k;
  }
}
