/** The business rules of `TareaService` over the store: a capacity ceiling
    on adding, the pending and completed views, completing a task, and the
    summary counts. */
module Service {
  import opened Wrappers
  import opened TareaModel
  import opened Repository
  import Seqs

  /** The `RuntimeException` thrown when the store is full; it names the limit. */
  datatype Error = LimiteMaximo(maxTareas: int)

  /** The three numbers `obtenerEstadisticas` reports. */
  datatype Estadisticas = Estadisticas(total: int, completadas: int, pendientes: int)

  predicate IsCompletada(t: Tarea) { t.completada }

  predicate IsPendiente(t: Tarea) { !t.completada }

  /** `listarPendientes` over a list: the not-completed tasks, in order. */
  function Pendientes(ts: seq<Tarea>): (r: seq<Tarea>)
    ensures forall t :: t in r <==> t in ts && !t.completada
  {
    Seqs.Filter(ts, IsPendiente)
  }

  /** `listarCompletadas` over a list: the completed tasks, in order. */
  function Completadas(ts: seq<Tarea>): (r: seq<Tarea>)
    ensures forall t :: t in r <==> t in ts && t.completada
  {
    Seqs.Filter(ts, IsCompletada)
  }

  /** The pending and completed views partition the list: no task is in
      both, their lengths add up to the total, and together they hold
      every task exactly as often as the list does. */
  lemma {:induction false} Partition(ts: seq<Tarea>)
    ensures |Pendientes(ts)| + |Completadas(ts)| == |ts|
    ensures multiset(Pendientes(ts)) + multiset(Completadas(ts)) == multiset(ts)
    ensures forall t :: t in Pendientes(ts) ==> t !in Completadas(ts)
  {
    if ts != [] {
      Partition(ts[1..]);
      assert ts == [ts[0]] + ts[1..];
    }
  }

  /** `marcarComoCompletada` on a list: `setCompletada(true)` on the stored
      object that `buscarPorId` returned, i.e. on the first task with the id;
      the list is unchanged when no task has it. */
  function CompleteFirst(ts: seq<Tarea>, id: Option<int>): (r: seq<Tarea>)
    ensures |r| == |ts|
    ensures forall i :: 0 <= i < |ts| ==> r[i].id == ts[i].id
  {
    match FirstIndex(ts, id)
    case None => ts
    case Some(k) => ts[k := ts[k].SetCompletada(true)]
  }

  /** Completing changes one flag of one task: the first task with the id
      becomes completed, its other fields stay, and every other task stays. */
  lemma CompleteFirstChangesOneFlag(ts: seq<Tarea>, id: Option<int>)
    ensures |CompleteFirst(ts, id)| == |ts|
    ensures !Contains(ts, id) ==> CompleteFirst(ts, id) == ts
    ensures Contains(ts, id) ==>
      var k := FirstIndex(ts, id).value;
      && CompleteFirst(ts, id)[k].completada
      && CompleteFirst(ts, id)[k].id == ts[k].id
      && CompleteFirst(ts, id)[k].descripcion == ts[k].descripcion
      && CompleteFirst(ts, id)[k].prioridad == ts[k].prioridad
      && forall j :: 0 <= j < |ts| && j != k ==> CompleteFirst(ts, id)[j] == ts[j]
  {
  }

  /** Completing twice is completing once, and the id is still there. */
  lemma CompleteFirstIdempotent(ts: seq<Tarea>, id: Option<int>)
    ensures Contains(CompleteFirst(ts, id), id) == Contains(ts, id)
    ensures CompleteFirst(CompleteFirst(ts, id), id) == CompleteFirst(ts, id)
  {
  }

  /** Completing keeps the ids fresh. */
  lemma CompleteFirstKeepsFresh(ts: seq<Tarea>, id: Option<int>, next: int)
    requires FreshIds(ts, next)
    ensures FreshIds(CompleteFirst(ts, id), next)
  {
  }

  /** Completing a pending task adds one to the completed count; completing
      a completed one, or an absent id, leaves the count as it was. */
  lemma CompleteFirstCounts(ts: seq<Tarea>, id: Option<int>)
    ensures |Completadas(CompleteFirst(ts, id))| ==
      |Completadas(ts)| + (if Contains(ts, id) && !ts[FirstIndex(ts, id).value].completada then 1 else 0)
  {
    if Contains(ts, id) {
      var k := FirstIndex(ts, id).value;
      Seqs.FilterUpdate(ts, k, ts[k].SetCompletada(true), IsCompletada);
    }
  }

  class TareaService {
    const repo: TareaRepository
    /** `app.max-tareas`, read once from the configuration. */
    const maxTareas: int

    constructor (repo: TareaRepository, maxTareas: int)
      ensures this.repo == repo && this.maxTareas == maxTareas
    {
      this.repo := repo;
      this.maxTareas := maxTareas;
    }

    /** The store holds no more tasks than the ceiling. */
    ghost predicate WithinCapacity()
      reads repo
    {
      |repo.tareas| <= maxTareas
    }

    /** `agregarTarea`: fails, leaving the store as it was, once the store
        holds `maxTareas` tasks; otherwise saves a new, not completed task
        that gets the next id. */
    method AgregarTarea(descripcion: string, prioridad: Prioridad) returns (r: Result<Tarea, Error>)
      requires repo.Valid()
      modifies repo
      ensures repo.Valid()
      ensures |old(repo.tareas)| >= maxTareas ==>
        && r == Failure(LimiteMaximo(maxTareas))
        && repo.tareas == old(repo.tareas)
        && repo.idGenerator == old(repo.idGenerator)
        && repo.issued == old(repo.issued)
      ensures |old(repo.tareas)| < maxTareas ==>
        && r == Success(Tarea(Some(old(repo.idGenerator)), descripcion, false, prioridad))
        && old(repo.idGenerator) !in old(repo.issued)
        && repo.tareas == old(repo.tareas) + [r.value]
        && repo.idGenerator == old(repo.idGenerator) + 1
        && repo.issued == old(repo.issued) + {old(repo.idGenerator)}
      ensures old(WithinCapacity()) ==> WithinCapacity()
      ensures old(FreshIds(repo.tareas, repo.idGenerator)) ==> FreshIds(repo.tareas, repo.idGenerator)
    {
      var todas := repo.ObtenerTodas();
      if |todas| >= maxTareas {
        return Failure(LimiteMaximo(maxTareas));
      }
      var nueva := NewTarea(None, descripcion, prioridad);
      var guardada := repo.Guardar(nueva);
      r := Success(guardada);
    }

    /** `listarTodas`: the store's snapshot. */
    method ListarTodas() returns (r: seq<Tarea>)
      ensures r == repo.tareas
    {
      r := repo.ObtenerTodas();
    }

    /** `listarPendientes`: exactly the not-completed tasks, in store order. */
    method ListarPendientes() returns (r: seq<Tarea>)
      ensures r == Pendientes(repo.tareas)
      ensures forall t :: t in r <==> t in repo.tareas && !t.completada
    {
      var todas := repo.ObtenerTodas();
      r := Seqs.Filter(todas, IsPendiente);
    }

    /** `listarCompletadas`: exactly the completed tasks, in store order. */
    method ListarCompletadas() returns (r: seq<Tarea>)
      ensures r == Completadas(repo.tareas)
      ensures forall t :: t in r <==> t in repo.tareas && t.completada
    {
      var todas := repo.ObtenerTodas();
      r := Seqs.Filter(todas, IsCompletada);
    }

    /** `marcarComoCompletada`: false and no change when no task has the id;
        otherwise true, with the first task holding the id completed. */
    method MarcarComoCompletada(id: Option<int>) returns (ok: bool)
      requires repo.Valid()
      modifies repo`tareas
      ensures repo.Valid()
      ensures ok <==> Contains(old(repo.tareas), id)
      ensures !ok ==> repo.tareas == old(repo.tareas)
      ensures repo.tareas == CompleteFirst(old(repo.tareas), id)
      ensures |repo.tareas| == |old(repo.tareas)|
      ensures old(FreshIds(repo.tareas, repo.idGenerator)) ==> FreshIds(repo.tareas, repo.idGenerator)
    {
      var found := repo.BuscarPorId(id);
      if found.Some? {
        // The task found is the stored object itself, so setting its flag
        // changes the store at the first position holding the id.
        if FreshIds(repo.tareas, repo.idGenerator) {
          CompleteFirstKeepsFresh(repo.tareas, id, repo.idGenerator);
        }
        repo.tareas := CompleteFirst(repo.tareas, id);
        ok := true;
      } else {
        ok := false;
      }
    }

    /** `obtenerEstadisticas`: the total, the number of completed tasks, and
        the rest as pending, which is exactly the number of pending tasks. */
    method ObtenerEstadisticas() returns (e: Estadisticas)
      ensures e.total == |repo.tareas|
      ensures e.completadas == |Completadas(repo.tareas)|
      ensures e.pendientes == |Pendientes(repo.tareas)|
      ensures e.pendientes + e.completadas == e.total
    {
      var todas := repo.ObtenerTodas();
      var completadas := |Seqs.Filter(todas, IsCompletada)|;
      var pendientes := |todas| - completadas;
      Partition(todas);
      e := Estadisticas(|todas|, completadas, pendientes);
    }
  }
}
