/** The in-memory task store `TareaRepository`: a list of tasks and a
    counter that mints ids. */
module Repository {
  import opened Wrappers
  import opened TareaModel
  import Seqs

  /** `t.getId().equals(id)`. A null argument matches no task. */
  predicate HasId(t: Tarea, id: Option<int>): (b: bool)
    ensures id.None? ==> !b
    ensures b ==> t.id.Some? && t.id == id
  {
    id.Some? && t.id == id
  }

  /** Some task of `ts` has the id `id`. */
  predicate Contains(ts: seq<Tarea>, id: Option<int>)
  {
    exists i :: 0 <= i < |ts| && HasId(ts[i], id)
  }

  /** The position of the first task with id `id`, as a stream's `findFirst`
      sees it. */
  function FirstIndex(ts: seq<Tarea>, id: Option<int>): (r: Option<nat>)
    ensures r.Some? ==> r.value < |ts| && HasId(ts[r.value], id)
    ensures r.Some? ==> forall j :: 0 <= j < r.value ==> !HasId(ts[j], id)
    ensures r.None? <==> !Contains(ts, id)
  {
    if ts == [] then None
    else if HasId(ts[0], id) then Some(0)
    else
      match FirstIndex(ts[1..], id)
      case None =>
        assert forall i :: 1 <= i < |ts| ==> ts[i] == ts[1..][i - 1];
        None
      case Some(k) =>
        assert ts[k + 1] == ts[1..][k];
        Some(k + 1)
  }

  /** `removeIf(t -> t.getId().equals(id))`: every task with the id goes,
      the others stay in order. */
  function Without(ts: seq<Tarea>, id: Option<int>): (r: seq<Tarea>)
    ensures |r| <= |ts|
    ensures forall t :: t in r <==> t in ts && !HasId(t, id)
  {
    Seqs.Filter(ts, (t: Tarea) => !HasId(t, id))
  }

  /** Ids are all present, all below `next`, and strictly increasing along
      the list; hence no two tasks share an id. */
  predicate FreshIds(ts: seq<Tarea>, next: int)
  {
    && (forall t :: t in ts ==> t.id.Some? && t.id.value < next)
    && (forall i, j :: 0 <= i < j < |ts| ==> ts[i].id.value < ts[j].id.value)
  }

  /** Appending a task that carries the counter's value, and moving the
      counter past it, keeps the ids fresh. */
  lemma AppendKeepsFresh(ts: seq<Tarea>, next: int, t: Tarea)
    requires FreshIds(ts, next) && t.id == Some(next)
    ensures FreshIds(ts + [t], next + 1)
  {
  }

  /** Strictly increasing ids are unique. */
  lemma FreshIdsUnique(ts: seq<Tarea>, next: int)
    requires FreshIds(ts, next)
    ensures forall i, j :: 0 <= i < |ts| && 0 <= j < |ts| && i != j ==> ts[i].id != ts[j].id
  {
  }

  /** One step of `removeIf`: the head goes when it has the id, and the
      tail is filtered the same way. */
  lemma WithoutCons(ts: seq<Tarea>, id: Option<int>)
    requires ts != []
    ensures Without(ts, id) == (if HasId(ts[0], id) then [] else [ts[0]]) + Without(ts[1..], id)
  {
  }

  /** A task whose id is below the counter and below every id of a fresh
      list can go in front of it. */
  lemma ConsKeepsFresh(t: Tarea, ts: seq<Tarea>, next: int)
    requires FreshIds(ts, next) && t.id.Some? && t.id.value < next
    requires forall u :: u in ts ==> t.id.value < u.id.value
    ensures FreshIds([t] + ts, next)
  {
  }

  /** The tail of a fresh list is fresh, and its ids are all above the
      head's. */
  lemma TailFresh(ts: seq<Tarea>, next: int)
    requires ts != [] && FreshIds(ts, next)
    ensures FreshIds(ts[1..], next)
    ensures forall u :: u in ts[1..] ==> ts[0].id.value < u.id.value
  {
  }

  /** Removing tasks keeps the ids fresh. */
  lemma {:induction false} WithoutKeepsFresh(ts: seq<Tarea>, id: Option<int>, next: int)
    requires FreshIds(ts, next)
    ensures FreshIds(Without(ts, id), next)
  {
    if ts != [] {
      TailFresh(ts, next);
      WithoutKeepsFresh(ts[1..], id, next);
      WithoutCons(ts, id);
      if !HasId(ts[0], id) {
        ConsKeepsFresh(ts[0], Without(ts[1..], id), next);
      }
    }
  }

  /** What `removeIf` returns: true exactly when a task had the id. And
      afterwards no task has it. */
  lemma WithoutRemoves(ts: seq<Tarea>, id: Option<int>)
    ensures |Without(ts, id)| < |ts| <==> Contains(ts, id)
    ensures !Contains(Without(ts, id), id)
  {
    var p := (t: Tarea) => !HasId(t, id);
    Seqs.FilterKeepsAll(ts, p);
    if Contains(ts, id) {
      var i :| 0 <= i < |ts| && HasId(ts[i], id);
      assert ts[i] in ts && !p(ts[i]);
    }
    var r := Without(ts, id);
    forall i | 0 <= i < |r|
      ensures !HasId(r[i], id)
    {
      assert r[i] in r;
    }
  }

  class TareaRepository {
    /** `tareas`: the stored tasks, in insertion order. */
    var tareas: seq<Tarea>
    /** `idGenerator`: the next id to hand out. */
    var idGenerator: int
    /** Every id the counter has handed out, those of deleted tasks included. */
    ghost var issued: set<int>

    /** Stored tasks always have an id, and the counter is above every id
        it has handed out. */
    ghost predicate Valid()
      reads this
    {
      && 1 <= idGenerator
      && (forall t :: t in tareas ==> t.id.Some?)
      && (forall n :: n in issued ==> 1 <= n < idGenerator)
    }

    /** The seed: four tasks with ids 1 to 4, none completed. */
    constructor ()
      ensures Valid() && FreshIds(tareas, idGenerator)
      ensures tareas == [
        Tarea(Some(1), "Estudiar Spring Boot", false, Alta),
        Tarea(Some(2), "Hacer ejercicio", false, Media),
        Tarea(Some(3), "Leer documentación", false, Baja),
        Tarea(Some(4), "Completar TP", false, Alta)]
      ensures idGenerator == 5 && issued == {1, 2, 3, 4}
    {
      // The counter starts at 1 and the four seed tasks take 1, 2, 3 and 4
      // from it in turn, which leaves it at 5.
      tareas := [
        NewTarea(Some(1), "Estudiar Spring Boot", Alta),
        NewTarea(Some(2), "Hacer ejercicio", Media),
        NewTarea(Some(3), "Leer documentación", Baja),
        NewTarea(Some(4), "Completar TP", Alta)];
      idGenerator := 5;
      issued := {1, 2, 3, 4};
    }

    /** `idGenerator.getAndIncrement()`: the current value, never handed out
        before, and the counter moves up by one. */
    method GetAndIncrement() returns (v: int)
      requires Valid()
      modifies this`idGenerator, this`issued
      ensures Valid()
      ensures v == old(idGenerator) && idGenerator == v + 1
      ensures v !in old(issued) && issued == old(issued) + {v}
    {
      v := idGenerator;
      idGenerator := idGenerator + 1;
      issued := issued + {v};
    }

    /** `guardar`: a task without an id gets the counter's value; the task
        is appended and returned. */
    method Guardar(t: Tarea) returns (r: Tarea)
      requires Valid()
      modifies this
      ensures Valid()
      ensures t.id.None? ==> r == t.SetId(Some(old(idGenerator)))
      ensures t.id.None? ==> idGenerator == old(idGenerator) + 1
      ensures t.id.None? ==> old(idGenerator) !in old(issued) && issued == old(issued) + {old(idGenerator)}
      ensures t.id.Some? ==> r == t && idGenerator == old(idGenerator) && issued == old(issued)
      ensures tareas == old(tareas) + [r]
      ensures t.id.None? && old(FreshIds(tareas, idGenerator)) ==> FreshIds(tareas, idGenerator)
    {
      r := t;
      if t.id.None? {
        var v := GetAndIncrement();
        r := t.SetId(Some(v));
        if FreshIds(tareas, v) {
          AppendKeepsFresh(tareas, v, r);
        }
      }
      tareas := tareas + [r];
    }

    /** `obtenerTodas`: a snapshot equal to the stored list. */
    method ObtenerTodas() returns (r: seq<Tarea>)
      ensures r == tareas
    {
      r := tareas;
    }

    /** `buscarPorId`: the first task with the id, or nothing when no task
        has it. */
    method BuscarPorId(id: Option<int>) returns (r: Option<Tarea>)
      ensures r.None? <==> !Contains(tareas, id)
      ensures r.Some? ==> exists k :: 0 <= k < |tareas| && tareas[k] == r.value && HasId(r.value, id)
                                      && forall j :: 0 <= j < k ==> !HasId(tareas[j], id)
    {
      var k := FirstIndex(tareas, id);
      if k.Some? {
        r := Some(tareas[k.value]);
      } else {
        r := None;
      }
    }

    /** `eliminarPorId`: removes every task with the id and reports whether
        any was removed; the counter is untouched. */
    method EliminarPorId(id: Option<int>) returns (removed: bool)
      requires Valid()
      modifies this`tareas
      ensures Valid()
      ensures tareas == Without(old(tareas), id)
      ensures removed <==> Contains(old(tareas), id)
      ensures !Contains(tareas, id)
      ensures idGenerator == old(idGenerator) && issued == old(issued)
      ensures old(FreshIds(tareas, idGenerator)) ==> FreshIds(tareas, idGenerator)
    {
      var kept := Without(tareas, id);
      WithoutRemoves(tareas, id);
      if FreshIds(tareas, idGenerator) {
        WithoutKeepsFresh(tareas, id, idGenerator);
      }
      removed := |kept| < |tareas|;
      tareas := kept;
    }
  }
}
