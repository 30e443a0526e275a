/** The scripted run of `TareasApplication`, with its console output left
    out: what the store and the service must report along the way. */
module Application {
  import opened Wrappers
  import opened TareaModel
  import opened Repository
  import opened Service
  import Seqs

  /** In a list with no completed task, completing a present id leaves
      the same number of tasks, exactly one of them completed. */
  lemma CompleteOneOfPending(ts: seq<Tarea>, id: Option<int>)
    requires Contains(ts, id)
    requires forall t :: t in ts ==> !t.completada
    ensures |CompleteFirst(ts, id)| == |ts|
    ensures |Completadas(CompleteFirst(ts, id))| == 1
  {
    Seqs.FilterKeepsNone(ts, IsCompletada);
    CompleteFirstCounts(ts, id);
  }

  /** Seed, add one task, complete task 1, and read the statistics:
      the new task is number 5, and the counts are 5 in all, 1 completed
      and 4 pending. */
  method Run(maxTareas: int) returns (nueva: Result<Tarea, Error>, marcada: bool, stats: Estadisticas)
    requires maxTareas > 4
    ensures nueva == Success(Tarea(Some(5), "Preparar presentación", false, Alta))
    ensures marcada
    ensures stats == Estadisticas(5, 1, 4)
  {
    var repo := new TareaRepository();
    var service := new TareaService(repo, maxTareas);
    nueva := service.AgregarTarea("Preparar presentación", Alta);
    var before := repo.tareas;
    assert HasId(before[0], Some(1));
    assert Contains(before, Some(1));
    assert forall t :: t in before ==> !t.completada;
    CompleteOneOfPending(before, Some(1));
    marcada := service.MarcarComoCompletada(Some(1));
    stats := service.ObtenerEstadisticas();
  }

  /** With a ceiling of 4 the seeded store is full: adding fails with the
      limit and the store still holds its four tasks. */
  method RunAtCapacity() returns (nueva: Result<Tarea, Error>, total: int)
    ensures nueva == Failure(LimiteMaximo(4))
    ensures total == 4
  {
    var repo := new TareaRepository();
    var service := new TareaService(repo, 4);
    nueva := service.AgregarTarea("Preparar presentación", Alta);
    var todas := service.ListarTodas();
    total := |todas|;
  }

  /** Completing the same id twice: both calls report success and the
      second leaves the store as the first left it. */
  method CompleteTwice(service: TareaService, id: Option<int>) returns (first: bool, second: bool)
    requires service.repo.Valid()
    requires Contains(service.repo.tareas, id)
    modifies service.repo`tareas
    ensures first && second
    ensures service.repo.idGenerator == old(service.repo.idGenerator)
    ensures service.repo.issued == old(service.repo.issued)
    ensures service.repo.tareas == CompleteFirst(old(service.repo.tareas), id)
  {
    first := service.MarcarComoCompletada(id);
    ghost var once := service.repo.tareas;
    CompleteFirstIdempotent(old(service.repo.tareas), id);
    second := service.MarcarComoCompletada(id);
    assert service.repo.tareas == CompleteFirst(once, id);
  }
}
