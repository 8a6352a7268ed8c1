TestResult.DisplayName,TestResult.Outcome,TestResult.Duration,TestResult.ResourceCount,RandomSeed
Sorting.InsertWithKey (correctness),Passed,00:00:01.0618078,1883492,3
Sorting.InsertSorted (correctness),Passed,00:00:00.4850826,939723,3
Sorting.Insert (well-formedness),Passed,00:00:00.1501270,88987,3
