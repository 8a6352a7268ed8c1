TestResult.DisplayName,TestResult.Outcome,TestResult.Duration,TestResult.ResourceCount,RandomSeed
Sorting.InsertSorted (correctness),Passed,00:00:01.2199218,2197767,8
Sorting.Insert (well-formedness),Passed,00:00:00.2107349,80311,8
Sorting.InsertWithKey (correctness),Passed,00:00:00.1325926,200737,8
