TestResult.DisplayName,TestResult.Outcome,TestResult.Duration,TestResult.ResourceCount,RandomSeed
Sorting.InsertSorted (correctness),Passed,00:00:01.8550068,4150494,5
Sorting.Insert (well-formedness),Passed,00:00:00.2539131,98703,5
Sorting.InsertWithKey (correctness),Passed,00:00:00.1863012,226452,5
