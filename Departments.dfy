/** The department colour table and its lookup (src/data/departments.ts). */
module Departments {
  import opened Seqs

  datatype Department = Department(name: string, color: string)

  const DepartmentTable: seq<Department> := [
    Department("Computer Science", "bg-blue-100 text-blue-800"),
    Department("Mathematics", "bg-green-100 text-green-800"),
    Department("Business", "bg-yellow-100 text-yellow-800"),
    Department("Engineering", "bg-purple-100 text-purple-800"),
    Department("Physics", "bg-red-100 text-red-800")
  ]

  const FallbackColor: string := "bg-gray-100 text-gray-800"

  predicate Listed(department: string) {
    exists i :: 0 <= i < |DepartmentTable| && DepartmentTable[i].name == department
  }

  /** No two entries of the table share a name, so a lookup by name has at
      most one answer. */
  lemma NamesUnique()
    ensures forall i, j :: 0 <= i < j < |DepartmentTable| ==> DepartmentTable[i].name != DepartmentTable[j].name
  {
  }

  /** `getDepartmentColor`: the colour of the first entry whose name equals
      `department` exactly (case-sensitively), or the grey fallback. */
  function DepartmentColor(department: string): (color: string)
    ensures forall i :: 0 <= i < |DepartmentTable| && DepartmentTable[i].name == department ==>
      color == DepartmentTable[i].color
    ensures !Listed(department) ==> color == FallbackColor
  {
    NamesUnique();
    match Find((d: Department) => d.name == department, DepartmentTable)
    case Some(d) => d.color
    case None => FallbackColor
  }

  /** A name gets the fallback exactly when the table does not list it: no
      listed department is coloured grey. */
  lemma FallbackIffUnlisted(department: string)
    ensures DepartmentColor(department) == FallbackColor <==> !Listed(department)
  {
    if Listed(department) {
      var i :| 0 <= i < |DepartmentTable| && DepartmentTable[i].name == department;
      assert DepartmentTable[i].color != FallbackColor;
    }
  }

  /** Matching is exact: a lower-cased listed name is not listed. */
  lemma LookupIsCaseSensitive()
    ensures DepartmentColor("Computer Science") == "bg-blue-100 text-blue-800"
    ensures DepartmentColor("computer science") == FallbackColor
  {
    assert DepartmentColor("Computer Science") == "bg-blue-100 text-blue-800" by {
      assert DepartmentTable[0].name == "Computer Science";
    }
    assert !Listed("computer science") by {
      forall i | 0 <= i < |DepartmentTable|
        ensures DepartmentTable[i].name != "computer science"
      {
        assert DepartmentTable[i].name[0] != 'c';
      }
    }
  }

  /** Two departments the assistant recognises in questions have no entry,
      so they are always shown grey. */
  lemma EnglishAndHistoryFallBack()
    ensures DepartmentColor("English") == FallbackColor
    ensures DepartmentColor("History") == FallbackColor
  {
  }
}
