/** The task record (`Tarea`) and its priority. */
module TareaModel {
  import opened Wrappers

  /** `Prioridad`: three labels with no ordering between them. */
  datatype Prioridad = Baja | Media | Alta

  /** A task. `id` is a Java `Long`: null (`None`) until the store assigns one.
      The fields are the getters `getId`, `getDescripcion`, `isCompletada`
      and `getPrioridad`. */
  datatype Tarea = Tarea(id: Option<int>, descripcion: string, completada: bool, prioridad: Prioridad)
  {
    /** `setId`: only the id changes. */
    function SetId(v: Option<int>): (r: Tarea)
      ensures r.id == v
      ensures r.descripcion == descripcion && r.completada == completada && r.prioridad == prioridad
    {
      this.(id := v)
    }

    /** `setDescripcion`: only the description changes. */
    function SetDescripcion(v: string): (r: Tarea)
      ensures r.descripcion == v
      ensures r.id == id && r.completada == completada && r.prioridad == prioridad
    {
      this.(descripcion := v)
    }

    /** `setCompletada`: only the completed flag changes. */
    function SetCompletada(v: bool): (r: Tarea)
      ensures r.completada == v
      ensures r.id == id && r.descripcion == descripcion && r.prioridad == prioridad
    {
      this.(completada := v)
    }

    /** `setPrioridad`: only the priority changes. */
    function SetPrioridad(v: Prioridad): (r: Tarea)
      ensures r.prioridad == v
      ensures r.id == id && r.descripcion == descripcion && r.completada == completada
    {
      this.(prioridad := v)
    }
  }

  /** The constructor `new Tarea(id, descripcion, prioridad)`: it keeps its
      arguments and always starts the task as not completed. */
  function NewTarea(id: Option<int>, descripcion: string, prioridad: Prioridad): (t: Tarea)
    ensures t.id == id && t.descripcion == descripcion && t.prioridad == prioridad
    ensures !t.completada
  {
    Tarea(id, descripcion, false, prioridad)
  }
}
