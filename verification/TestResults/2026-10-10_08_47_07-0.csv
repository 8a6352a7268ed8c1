TestResult.DisplayName,TestResult.Outcome,TestResult.Duration,TestResult.ResourceCount,RandomSeed
Sorting.InsertWithKey (correctness),Passed,00:00:05.6432650,8637905,4
Sorting.InsertSorted (correctness),Passed,00:00:00.5844336,950346,4
Sorting.Insert (well-formedness),Passed,00:00:00.1875735,90105,4
