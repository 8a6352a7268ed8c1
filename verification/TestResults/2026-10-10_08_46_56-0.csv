TestResult.DisplayName,TestResult.Outcome,TestResult.Duration,TestResult.ResourceCount,RandomSeed
Sorting.InsertWithKey (correctness),Passed,00:00:00.5481791,1113780,2
Sorting.InsertSorted (correctness),Passed,00:00:00.5227239,951688,2
Sorting.Insert (well-formedness),Passed,00:00:00.1938555,96191,2
