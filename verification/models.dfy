/**
 * The judge's entities as immutable records (client/models.py). Equality of
 * two records is structural, field by field, like the dataclasses' `__eq__`.
 */
module Models {
  import opened Wrappers

  datatype Problem = Problem(problemId: string, problemName: string)

  datatype Compiler = Compiler(compilerId: string, compilerName: string, compilerLang: string)

  /** One row of a submission's per-test feedback; the order of tests is the server's. */
  datatype Test = Test(testId: string, result: string, time: string, memory: string, comment: string)

  datatype Submission = Submission(id: string, problem: string, compiler: string, result: string, time: string)

  datatype Contest = Contest(id: string, name: string, status: string, statementUrl: Option<string>)

  /** `Contest(id=..., name=..., status=...)`: the statement URL takes its default. */
  function NewContest(id: string, name: string, status: string): (c: Contest)
    ensures c.statementUrl.None?
    ensures c.id == id && c.name == name && c.status == status
  {
    Contest(id, name, status, None)
  }
}
