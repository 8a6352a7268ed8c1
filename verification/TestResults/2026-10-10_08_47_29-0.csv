TestResult.DisplayName,TestResult.Outcome,TestResult.Duration,TestResult.ResourceCount,RandomSeed
Sorting.InsertSorted (correctness),Passed,00:00:00.6927319,1202530,7
Sorting.InsertWithKey (correctness),Passed,00:00:00.4115386,631257,7
Sorting.Insert (well-formedness),Passed,00:00:00.2428741,96398,7
