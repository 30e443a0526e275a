# In-memory task store and task service

This project models the core of a small task-list manager: the in-memory
store `TareaRepository`, the service `TareaService` that applies business
rules on top of it, and the task record `Tarea`. It then proves properties
of that model in Dafny.

- `tarea.dfy` (module `TareaModel`). A task is a value with an id, a
  description, a completed flag and a priority. The id is a Java `Long`,
  which may be null, and the model writes that as `Option<int>`. The setters
  are functions that give back the task with one field replaced. The
  constructor `NewTarea` always starts a task as not completed.
- `repository.dfy` (module `Repository`). The class `TareaRepository` has
  the list `tareas: seq<Tarea>` and the counter `idGenerator`. A ghost set
  `issued` records every id the counter has handed out, so the model can
  show that an id is never handed out twice, even after its task is
  deleted. `FreshIds(ts, next)` is the invariant that every stored id is
  present, below the counter and strictly increasing along the list. The
  seed establishes it. `guardar` keeps it when the task has no id, and
  `eliminarPorId` and `marcarComoCompletada` always keep it.
- `service.dfy` (module `Service`). The class `TareaService` holds the store
  and the ceiling `maxTareas`. The pending and completed views are
  order-preserving filters. A lemma proves that they partition the list.
  Completing a task is the function `CompleteFirst`: it updates the first
  task with the id, and `buscarPorId` returns that same stored object. The
  statistics count the completed tasks and take pending as total minus
  completed, as the code does; `Partition` then proves that this equals
  the number of pending tasks.
- `seqs.dfy` (module `Seqs`). This is the generic order-preserving `Filter`
  behind `stream().filter(...)` and `removeIf`, with its lemmas.
- `application.dfy` (module `Application`). This holds the scripted run of
  `TareasApplication` as two scenarios, plus a client that completes the
  same task twice.
- `wrappers.dfy` (module `Wrappers`) defines `Option` and `Result`.

Three behaviours of the code worth noting:

- `eliminarPorId` uses `removeIf`, so it removes every task with the id, not
  only the first one.
- The store's insert operation is `guardar(Tarea)`. It keeps an id the task
  already has and assigns the counter's value only to a task whose id is
  null.
- Id arguments may be null, and then nothing matches, because
  `Long.equals(null)` is false.

## Model

| member | source | states |
|---|---|---|
| `TareaModel.NewTarea` | SringBoot/src/main/java/com/utn/tareas/model/Tarea.java:9-14 | the new task keeps the given id, description and priority, and is not completed |
| `TareaModel.Tarea.SetId` | SringBoot/src/main/java/com/utn/tareas/model/Tarea.java:16-22 | afterwards the id getter returns the new id; description, flag and priority are unchanged |
| `TareaModel.Tarea.SetDescripcion` | SringBoot/src/main/java/com/utn/tareas/model/Tarea.java:24-30 | afterwards the description getter returns the new description; the other fields are unchanged |
| `TareaModel.Tarea.SetCompletada` | SringBoot/src/main/java/com/utn/tareas/model/Tarea.java:32-38 | afterwards the flag getter returns the new flag; id, description and priority are unchanged |
| `TareaModel.Tarea.SetPrioridad` | SringBoot/src/main/java/com/utn/tareas/model/Tarea.java:40-46 | afterwards the priority getter returns the new priority; the other fields are unchanged |
| `Repository.TareaRepository.constructor` | SringBoot/src/main/java/com/utn/tareas/repository/TareaRepository.java:17-25 | the store holds exactly the four seed tasks with ids 1, 2, 3, 4 in order, none completed; the counter is 5; the ids are fresh |
| `Repository.TareaRepository.GetAndIncrement` | SringBoot/src/main/java/com/utn/tareas/repository/TareaRepository.java:29 | returns the current counter, which was never handed out before, and raises the counter by exactly 1 |
| `Repository.TareaRepository.Guardar` | SringBoot/src/main/java/com/utn/tareas/repository/TareaRepository.java:27-33 | a null id becomes the counter's value and the counter rises by 1; a set id and the counter stay as they were; exactly one task is appended after the unchanged old list; fresh ids stay fresh when the id was null |
| `Repository.AppendKeepsFresh` | SringBoot/src/main/java/com/utn/tareas/repository/TareaRepository.java:28-31 | appending a task that carries the counter's value and moving the counter past it keeps ids present, below the counter and strictly increasing |
| `Repository.FreshIdsUnique` | SringBoot/src/main/java/com/utn/tareas/repository/TareaRepository.java:19-29 | under the fresh-id invariant no two stored tasks share an id |
| `Repository.TareaRepository.ObtenerTodas` | SringBoot/src/main/java/com/utn/tareas/repository/TareaRepository.java:35-37 | the snapshot equals the stored list; nothing is modified |
| `Repository.HasId` | SringBoot/src/main/java/com/utn/tareas/repository/TareaRepository.java:41 | a null argument matches no task; a match means the task's id is set and equal to the argument |
| `Repository.FirstIndex` | SringBoot/src/main/java/com/utn/tareas/repository/TareaRepository.java:40-42 | the position found holds the id and no earlier position does; there is none exactly when no task has the id |
| `Repository.TareaRepository.BuscarPorId` | SringBoot/src/main/java/com/utn/tareas/repository/TareaRepository.java:39-43 | returns the stored task at the first position with the id, or nothing exactly when no task has it; nothing is modified |
| `Repository.TareaRepository.EliminarPorId` | SringBoot/src/main/java/com/utn/tareas/repository/TareaRepository.java:45-47 | the list becomes the order-preserving filter without the id; the result is true exactly when some task had the id; no task has it afterwards; counter and issued ids unchanged; fresh ids stay fresh |
| `Repository.Without` | SringBoot/src/main/java/com/utn/tareas/repository/TareaRepository.java:46 | the list after `removeIf` is no longer than before and holds exactly the tasks that do not have the id |
| `Repository.WithoutRemoves` | SringBoot/src/main/java/com/utn/tareas/repository/TareaRepository.java:46 | removal shortens the list exactly when some task had the id, and leaves no task with it |
| `Repository.WithoutCons` | SringBoot/src/main/java/com/utn/tareas/repository/TareaRepository.java:46 | removal drops the head exactly when it has the id, and treats the tail the same way |
| `Repository.WithoutKeepsFresh` | SringBoot/src/main/java/com/utn/tareas/repository/TareaRepository.java:46 | removing tasks keeps the ids fresh, so deletion never breaks uniqueness or ordering |
| `Repository.TailFresh` | SringBoot/src/main/java/com/utn/tareas/repository/TareaRepository.java:46 | the tail of a fresh list is fresh and all its ids are above the head's |
| `Repository.ConsKeepsFresh` | SringBoot/src/main/java/com/utn/tareas/repository/TareaRepository.java:46 | a task below the counter and below every id of a fresh list can be kept in front of it |
| `Seqs.Filter` | SringBoot/src/main/java/com/utn/tareas/service/TareaService.java:44-46 | the result is no longer than the input and holds exactly the input's elements that satisfy the predicate |
| `Seqs.FilterAppend` | SringBoot/src/main/java/com/utn/tareas/service/TareaService.java:44-52 | filtering distributes over concatenation, so the views keep store order |
| `Seqs.FilterKeepsAll` | SringBoot/src/main/java/com/utn/tareas/repository/TareaRepository.java:46 | filtering keeps the full length exactly when every element passes, and then returns its input |
| `Seqs.FilterKeepsNone` | SringBoot/src/main/java/com/utn/tareas/service/TareaService.java:50-52 | filtering yields nothing exactly when no element passes |
| `Seqs.FilterUpdate` | SringBoot/src/main/java/com/utn/tareas/service/TareaService.java:58-66 | replacing one element changes the filtered count by the old and new elements' contributions |
| `Service.TareaService.constructor` | SringBoot/src/main/java/com/utn/tareas/service/TareaService.java:19-27 | the service uses the given store and ceiling |
| `Service.TareaService.AgregarTarea` | SringBoot/src/main/java/com/utn/tareas/service/TareaService.java:29-37 | at or above the ceiling it fails with the limit and leaves list, counter and issued ids unchanged; otherwise it appends one task with the fresh id, the given description and priority, not completed, and records that id as issued; the ceiling and fresh ids are preserved |
| `Service.TareaService.ListarTodas` | SringBoot/src/main/java/com/utn/tareas/service/TareaService.java:39-41 | returns the stored list; nothing is modified |
| `Service.Pendientes` | SringBoot/src/main/java/com/utn/tareas/service/TareaService.java:44-46 | holds exactly the tasks of the list that are not completed |
| `Service.Completadas` | SringBoot/src/main/java/com/utn/tareas/service/TareaService.java:50-52 | holds exactly the tasks of the list that are completed |
| `Service.TareaService.ListarPendientes` | SringBoot/src/main/java/com/utn/tareas/service/TareaService.java:43-47 | returns exactly the not-completed tasks, in store order |
| `Service.TareaService.ListarCompletadas` | SringBoot/src/main/java/com/utn/tareas/service/TareaService.java:49-53 | returns exactly the completed tasks, in store order |
| `Service.Partition` | SringBoot/src/main/java/com/utn/tareas/service/TareaService.java:43-53 | pending and completed views are disjoint, their lengths sum to the total, and together they are a permutation of the list |
| `Service.TareaService.MarcarComoCompletada` | SringBoot/src/main/java/com/utn/tareas/service/TareaService.java:55-62 | true exactly when some task has the id; on false nothing changes; the list becomes the one-flag update of the first task with the id; length, counter and fresh ids kept |
| `Service.CompleteFirst` | SringBoot/src/main/java/com/utn/tareas/service/TareaService.java:56-60 | completing keeps the list's length and the id at every position |
| `Service.CompleteFirstChangesOneFlag` | SringBoot/src/main/java/com/utn/tareas/service/TareaService.java:56-60 | only the first task with the id changes, and only its flag, which becomes true; an absent id changes nothing |
| `Service.CompleteFirstIdempotent` | SringBoot/src/main/java/com/utn/tareas/service/TareaService.java:56-61 | after completing, the id is still present, and completing again gives the same list |
| `Service.CompleteFirstKeepsFresh` | SringBoot/src/main/java/com/utn/tareas/service/TareaService.java:58 | completing keeps the ids fresh |
| `Service.CompleteFirstCounts` | SringBoot/src/main/java/com/utn/tareas/service/TareaService.java:58-66 | completing a pending task raises the completed count by one; otherwise the count is unchanged |
| `Service.TareaService.ObtenerEstadisticas` | SringBoot/src/main/java/com/utn/tareas/service/TareaService.java:64-67 | total is the list length, completed is the number of completed tasks, pending equals the number of pending tasks, and pending + completed = total |
| `Application.Run` | SringBoot/src/main/java/com/utn/tareas/TareasApplication.java:26-56 | with a ceiling above 4 the added task gets id 5, completing task 1 succeeds, and the statistics are 5 total, 1 completed, 4 pending |
| `Application.CompleteOneOfPending` | SringBoot/src/main/java/com/utn/tareas/TareasApplication.java:44-47 | in a list with no completed task, completing a present id keeps the length and leaves exactly one task completed |
| `Application.RunAtCapacity` | SringBoot/src/main/java/com/utn/tareas/service/TareaService.java:30-33 | with a ceiling of 4 the seeded store rejects an addition with the limit and still holds 4 tasks |
| `Application.CompleteTwice` | SringBoot/src/main/java/com/utn/tareas/service/TareaService.java:55-62 | two completions of a present id both return true and leave the list of a single completion; the counter and the issued ids are unchanged |

## Left out

- Console output is not modelled: the banners, `mostrarConfiguracion`, the
  layout of the statistics text and `Tarea.toString`. The statistics are
  modelled as three numbers.
- The greeting services `MensajeDevService` and `MensajeProdService` are
  not modelled. They only print, and the Spring profile mechanism picks
  which one runs.
- The Spring wiring is not modelled. `app.max-tareas` becomes a constructor
  argument. `app.nombre` and `app.mostrar-estadisticas` feed only the
  console output, so the model drops them.
- Aliasing is modelled for one case only. Java hands callers the stored
  task objects: `obtenerTodas` copies only the list, and `guardar`,
  `buscarPorId` and `agregarTarea` return stored objects. A caller that
  mutates such an object therefore changes the store. Tasks here are
  values, so this is captured only where the service itself does it,
  in `marcarComoCompletada`, as a positional update of the first task with
  the id.
- Service.TareaService.MarcarComoCompletada: a task object saved twice
  (for instance the result of `agregarTarea` given again to `guardar`) is
  modelled as two independent values, so only the first copy gets the
  flag. In Java both positions hold one object and both read as completed.
- Tasks with a null id are never stored in the model. In Java,
  `buscarPorId` and `eliminarPorId` would throw a `NullPointerException`
  on such a task. The invariant `Valid` rules them out, and `guardar`
  maintains it.
- Ids are unbounded integers. The model does not wrap the 64-bit
  `AtomicLong` counter, `Long` ids or the `int` list size. The atomicity
  of `AtomicLong` is not modelled either, since the code is
  single-threaded.
- Repository.TareaRepository.Guardar: the fresh-id invariant is proved
  only for tasks saved without an id. A task saved with an id it already
  has can repeat an id or break the ordering, as in the source. Saving
  the same object twice also stores two independent values here, where
  Java stores one object at two positions.
- Descriptions are opaque strings. The constructor's contract pins the
  four seed descriptions; nothing else inspects a description.
- `Prioridad` is a three-label datatype with no ordering. Its Java source
  is not part of this model.
- An addition past the ceiling is returned as a `Failure` value. The model
  does not capture how the uncaught exception ends the run of
  `TareasApplication`.
