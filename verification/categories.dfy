/**
 The three narrative components the user picks. Both front ends keep one field per
 component (the selection, the option list, the loading flag); PerCategory is that record.
 */
module Categories {

  import opened Options

  datatype Category = Character | Setting | Lesson

  /** The property key of a category in the hook's selection record. */
  function Key(c: Category): string {
    match c
    case Character => "character"
    case Setting => "setting"
    case Lesson => "lesson"
  }

  /** The category named by a selection-record key, if any. */
  function FromKey(key: string): (r: Option<Category>)
    ensures r.Some? ==> Key(r.value) == key
    ensures r.None? ==> forall c: Category :: Key(c) != key
  {
    if key == "character" then Some(Character)
    else if key == "setting" then Some(Setting)
    else if key == "lesson" then Some(Lesson)
    else None
  }

  /** One value per category, updated by constructing a new record (the JavaScript object spread). */
  datatype PerCategory<T> = PerCategory(character: T, setting: T, lesson: T) {

    function Get(c: Category): T {
      match c
      case Character => character
      case Setting => setting
      case Lesson => lesson
    }

    /** `{ ...prev, [key]: v }`: the named field becomes v and the other two are kept. */
    function Set(c: Category, v: T): (r: PerCategory<T>)
      ensures r.Get(c) == v
      ensures forall d: Category :: d != c ==> r.Get(d) == Get(d)
    {
      match c
      case Character => this.(character := v)
      case Setting => this.(setting := v)
      case Lesson => this.(lesson := v)
    }
  }
}
