TestResult.DisplayName,TestResult.Outcome,TestResult.Duration,TestResult.ResourceCount,RandomSeed
Sorting.InsertSorted (correctness),Passed,00:00:00.6460872,715877,6
Sorting.Insert (well-formedness),Passed,00:00:00.3072502,94631,6
Sorting.InsertWithKey (correctness),Passed,00:00:00.1857650,286691,6
